/**
  The `data:` URLs the editor stores its images in (RFC 2397, section 3:
  `data:<mediatype>;base64,<data>`), and the way the editor takes the
  payload back out of one: JavaScript's `url.split(',')[1]`.
 */
module DataUrl {
  import opened Types

  const Comma: char := ','

  /** The alphabet of base64 text, padding included. */
  predicate IsBase64Char(c: char) {
    ('A' <= c <= 'Z') || ('a' <= c <= 'z') || ('0' <= c <= '9') || c == '+' || c == '/' || c == '='
  }

  predicate IsBase64(s: string) {
    forall i :: 0 <= i < |s| ==> IsBase64Char(s[i])
  }

  /** Base64 text never contains the separator the payload is cut at. */
  lemma Base64HasNoComma(s: string)
    requires IsBase64(s)
    ensures Comma !in s
  {
  }

  /**
    JavaScript's `s.split(',')`: the pieces between the commas, in order,
    empty pieces kept; there is always at least one piece.
   */
  function Split(s: string): (parts: seq<string>)
    ensures |parts| >= 1
    ensures forall k :: 0 <= k < |parts| ==> Comma !in parts[k]
    decreases |s|
  {
    if s == [] then [[]]
    else if s[0] == Comma then [[]] + Split(s[1..])
    else
      var rest := Split(s[1..]);
      [[s[0]] + rest[0]] + rest[1..]
  }

  /** `parts.join(',')`. */
  function Join(parts: seq<string>): (s: string)
    requires |parts| >= 1
    decreases |parts|
  {
    if |parts| == 1 then parts[0] else parts[0] + [Comma] + Join(parts[1..])
  }

  /** Splitting loses nothing: the commas and the pieces give back the string. */
  lemma {:induction false} JoinSplit(s: string)
    ensures Join(Split(s)) == s
    decreases |s|
  {
    if s == [] {
    } else if s[0] == Comma {
      JoinSplit(s[1..]);
      assert s == [Comma] + s[1..];
    } else {
      JoinSplit(s[1..]);
      var rest := Split(s[1..]);
      assert Split(s) == [[s[0]] + rest[0]] + rest[1..];
      if |rest| == 1 {
        assert s == [s[0]] + s[1..];
      } else {
        assert Join(Split(s)) == [s[0]] + rest[0] + [Comma] + Join(rest[1..]);
        assert Join(rest) == rest[0] + [Comma] + Join(rest[1..]);
        assert s == [s[0]] + s[1..];
      }
    }
  }

  /** The pieces of a comma-free string: just the string. */
  lemma {:induction false} SplitNoComma(s: string)
    requires Comma !in s
    ensures Split(s) == [s]
    decreases |s|
  {
    if s != [] {
      assert s[0] != Comma;
      assert Comma !in s[1..];
      SplitNoComma(s[1..]);
      assert s == [s[0]] + s[1..];
    }
  }

  /** A comma-free prefix ending at the first comma is the first piece. */
  lemma {:induction false} SplitAtFirstComma(a: string, b: string)
    requires Comma !in a
    ensures Split(a + [Comma] + b) == [a] + Split(b)
    decreases |a|
  {
    if a == [] {
      assert a + [Comma] + b == [Comma] + b;
      assert ([Comma] + b)[1..] == b;
    } else {
      assert Comma !in a[1..];
      SplitAtFirstComma(a[1..], b);
      assert (a + [Comma] + b)[1..] == a[1..] + [Comma] + b;
      assert [a[0]] + a[1..] == a;
    }
  }

  /**
    `url.split(',')[1]`: the text between the first and the second comma,
    or `None` (JavaScript's `undefined`) when the URL has no comma.
   */
  function Payload(url: string): (p: Option<string>)
    ensures p.None? <==> Comma !in url
    ensures p.Some? ==> Comma !in p.value
  {
    var parts := Split(url);
    assert Comma !in url ==> parts == [url] by {
      if Comma !in url { SplitNoComma(url); }
    }
    assert |parts| == 1 ==> url == parts[0] by {
      JoinSplit(url);
    }
    if |parts| >= 2 then Some(parts[1]) else None
  }

  /**
    Which text `Payload` is: for a URL whose first comma follows `a`, the
    piece `p` up to the next comma or the end.
   */
  lemma PayloadAfterFirstComma(a: string, p: string, rest: string)
    requires Comma !in a && Comma !in p
    requires rest == [] || rest[0] == Comma
    ensures Payload(a + [Comma] + p + rest) == Some(p)
  {
    assert a + [Comma] + p + rest == a + [Comma] + (p + rest);
    SplitAtFirstComma(a, p + rest);
    if rest == [] {
      assert p + rest == p;
      SplitNoComma(p);
    } else {
      assert p + rest == p + [Comma] + rest[1..];
      SplitAtFirstComma(p, rest[1..]);
    }
  }

  /** The template the editor writes an edit result as: `data:${mime};base64,${payload}`. */
  function Build(mimeType: string, payload: string): (url: string)
    ensures |url| == 5 + |mimeType| + 8 + |payload|
    ensures url[..5] == "data:" && url[5..5 + |mimeType|] == mimeType
    ensures url[5 + |mimeType|..13 + |mimeType|] == ";base64,"
    ensures url[13 + |mimeType|..] == payload
  {
    "data:" + mimeType + ";base64," + payload
  }

  /**
    The round trip the editor relies on when it edits an edited image: the
    payload it cuts out of a URL it built is the payload it put in, provided
    the media type has no comma and the payload is base64.
   */
  lemma PayloadOfBuild(mimeType: string, payload: string)
    requires Comma !in mimeType
    requires IsBase64(payload)
    ensures Payload(Build(mimeType, payload)) == Some(payload)
  {
    Base64HasNoComma(payload);
    var head := "data:" + mimeType + ";base64";
    assert Comma !in head;
    assert Build(mimeType, payload) == head + [Comma] + payload;
    SplitAtFirstComma(head, payload);
    SplitNoComma(payload);
  }
}
