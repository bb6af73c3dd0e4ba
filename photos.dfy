/** Counting the images of a pawn submission. The photos arrive as the text
    of a JSON array of strings; the backend counts one image plus one per
    comma that is outside quotes. Whether a quote switches "inside quotes"
    on and off is decided by looking at the character before the FIRST
    quote of the array body, whichever quote is being scanned: either every
    quote toggles or none does. */
module Photos {
  import opened Wrappers
  import opened Text

  /** The array body: the text between the brackets, trimmed, when the
      photos are bracketed; None when they are not. */
  function ArrayBody(photos: string): (r: Option<string>)
    ensures r.Some? <==> |photos| >= 2 && photos[0] == '[' && photos[|photos| - 1] == ']'
  {
    if |photos| >= 2 && photos[0] == '[' && photos[|photos| - 1] == ']' then
      Some(JavaTrim(photos[1..|photos| - 1]))
    else None
  }

  /** The escape test as written: the character before the first quote of
      `content` is not a backslash (or that quote opens the body). */
  function QuotesToggle(content: string): (r: bool)
    ensures !r <==> exists q :: 0 < q < |content| && content[q] == '"' && content[q - 1] == '\\'
                                && '"' !in content[..q]
  {
    match IndexOfChar(content, '"')
    case None => true
    case Some(q) => q == 0 || content[q - 1] != '\\'
  }

  /** The number of commas of `s` read outside quotes, starting with the
      given quote state; quotes switch the state only when `toggles`. */
  function CommasOutside(s: string, toggles: bool, inQuotes: bool): (r: nat)
    ensures r <= |s|
    ensures !toggles && inQuotes ==> r == 0
    ensures !toggles && !inQuotes ==> r == |s| - |RemoveAll(s, ',')|
  {
    if s == [] then 0
    else
      var q := if s[0] == '"' && toggles then !inQuotes else inQuotes;
      (if s[0] == ',' && !q then 1 else 0) + CommasOutside(s[1..], toggles, q)
  }

  /** The image count of `countImagesInJson`. */
  function ImageCount(photos: Option<string>): (n: nat)
    ensures n == 0 <==> photos.None? || JavaTrim(photos.value) == []
                        || ArrayBody(photos.value).None? || ArrayBody(photos.value).value == []
  {
    if photos.None? || JavaTrim(photos.value) == [] then 0
    else
      match ArrayBody(photos.value)
      case None => 0
      case Some(content) =>
        if content == [] then 0 else 1 + CommasOutside(content, QuotesToggle(content), false)
  }

  /** `countImagesInJson(jsonPhotos)`. */
  method CountImagesInJson(jsonPhotos: Option<string>) returns (count: nat)
    ensures count == ImageCount(jsonPhotos)
  {
    if jsonPhotos.None? || JavaTrim(jsonPhotos.value) == [] {
      return 0;
    }
    var photos := jsonPhotos.value;
    if |photos| >= 2 && photos[0] == '[' && photos[|photos| - 1] == ']' {
      var content := JavaTrim(photos[1..|photos| - 1]);
      if content == [] {
        return 0;
      }
      count := CountOutsideQuotes(content);
      return count;
    }
    return 0;
  }

  /** The scan of a non-empty array body: one image, plus one per comma read
      outside quotes, flipping the quote state at each quote that passes the
      escape test. */
  method CountOutsideQuotes(content: string) returns (count: nat)
    requires content != []
    ensures count == 1 + CommasOutside(content, QuotesToggle(content), false)
  {
    ghost var toggles := QuotesToggle(content);
    count := 1;
    var inQuotes := false;
    for i := 0 to |content|
      invariant count + CommasOutside(content[i..], toggles, inQuotes)
                == 1 + CommasOutside(content, toggles, false)
    {
      var c := content[i];
      ghost var before := inQuotes;
      if c == '"' {
        var q := IndexOfChar(content, c).value;
        assert (q == 0 || content[q - 1] != '\\') == toggles;
        if q == 0 || content[q - 1] != '\\' {
          inQuotes := !inQuotes;
        }
      }
      assert content[i..][0] == c && content[i..][1..] == content[i + 1..];
      if c == ',' && !inQuotes {
        count := count + 1;
      }
    }
    assert content[|content|..] == [];
  }

  /** `"x"`: one JSON string without escapes. */
  function Quoted(x: string): string
  {
    "\"" + x + "\""
  }

  /** The items written as `"a","b",...`, the way JSON.stringify writes an
      array of strings. */
  function QuotedList(items: seq<string>): (s: string)
    requires |items| >= 1
    ensures |s| >= 2 && s[0] == '"' && s[|s| - 1] == '"'
  {
    if |items| == 1 then Quoted(items[0])
    else Quoted(items[0]) + "," + QuotedList(items[1..])
  }

  /** The text of a JSON array of strings. */
  function JsonArray(items: seq<string>): string
  {
    if items == [] then "[]" else "[" + QuotedList(items) + "]"
  }

  /** Inside quotes, a quote-free text adds no comma. */
  lemma {:induction false} InsideQuotes(x: string, rest: string)
    requires '"' !in x
    ensures CommasOutside(x + rest, true, true) == CommasOutside(rest, true, true)
  {
    if x != [] {
      assert x == [x[0]] + x[1..];
      assert (x + rest)[0] == x[0] != '"';
      assert (x + rest)[1..] == x[1..] + rest;
      InsideQuotes(x[1..], rest);
    } else {
      assert x + rest == rest;
    }
  }

  /** A quoted, quote-free item adds no comma and leaves the state outside quotes. */
  lemma QuotedItem(x: string, rest: string)
    requires '"' !in x
    ensures CommasOutside(Quoted(x) + rest, true, false) == CommasOutside(rest, true, false)
  {
    var s := Quoted(x) + rest;
    assert s[1..] == x + ("\"" + rest);
    InsideQuotes(x, "\"" + rest);
    assert ("\"" + rest)[1..] == rest;
  }

  /** A list of n quoted items holds n - 1 separating commas. */
  lemma {:induction false} QuotedListCommas(items: seq<string>)
    requires |items| >= 1
    requires forall i :: 0 <= i < |items| ==> '"' !in items[i]
    ensures CommasOutside(QuotedList(items), true, false) == |items| - 1
  {
    if |items| == 1 {
      QuotedItem(items[0], []);
      assert Quoted(items[0]) + [] == Quoted(items[0]);
    } else {
      var tail := QuotedList(items[1..]);
      assert QuotedList(items) == Quoted(items[0]) + ("," + tail);
      QuotedItem(items[0], "," + tail);
      assert ("," + tail)[0] == ',' && ("," + tail)[1..] == tail;
      QuotedListCommas(items[1..]);
    }
  }

  /** A well-formed JSON array of quote-free strings (data URLs included,
      whose commas sit inside quotes) counts exactly its items. */
  lemma ImageCountOfArray(items: seq<string>)
    requires forall i :: 0 <= i < |items| ==> '"' !in items[i]
    ensures ImageCount(Some(JsonArray(items))) == |items|
  {
    var s := JsonArray(items);
    assert s[0] == '[' && !IsJavaSpace(s[0]);
    assert JavaTrim(s) != [];
    if items != [] {
      var body := QuotedList(items);
      assert s[1..|s| - 1] == body;
      TrimWithUnchanged(body, IsJavaSpace);
      assert IndexOfChar(body, '"') == Some(0);
      QuotedListCommas(items);
    } else {
      assert s[1..|s| - 1] == [];
    }
  }

  /** The first-quote test in action: in `["a\"b","c"]` the escaped quote
      toggles like the others, the separating comma is read as quoted, and
      two images count as one. */
  lemma EscapedQuoteUndercounts()
    ensures ImageCount(Some("[\"a\\\"b\",\"c\"]")) == 1
  {
    var content := "\"a\\\"b\",\"c\"";
    EscapedArrayBody();
    EscapedBodyCommas();
    assert IndexOfChar(content, '"') == Some(0);
  }

  lemma EscapedArrayBody()
    ensures JavaTrim("[\"a\\\"b\",\"c\"]") != []
    ensures ArrayBody("[\"a\\\"b\",\"c\"]") == Some("\"a\\\"b\",\"c\"")
  {
    var content := "\"a\\\"b\",\"c\"";
    assert "[\"a\\\"b\",\"c\"]"[1..11] == content;
    TrimWithUnchanged(content, IsJavaSpace);
  }

  /** The states after each character of the body, read from its end. */
  lemma EscapedBodyCommas()
    ensures CommasOutside("\"a\\\"b\",\"c\"", true, false) == 0
  {
    assert CommasOutside("\"", true, false) == 0;
    assert CommasOutside("c\"", true, false) == 0;
    assert CommasOutside("\"c\"", true, true) == 0;
    assert CommasOutside(",\"c\"", true, true) == 0;
    assert CommasOutside("\",\"c\"", true, false) == 0;
    assert CommasOutside("b\",\"c\"", true, false) == 0;
    assert CommasOutside("\"b\",\"c\"", true, true) == 0;
    assert CommasOutside("\\\"b\",\"c\"", true, true) == 0;
    assert CommasOutside("a\\\"b\",\"c\"", true, true) == 0;
  }
}
