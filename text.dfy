/** String helpers the encoder relies on: slice joining and UTF-8 byte length. */
module Text {

  /** The separator that `MultipartBody::for_request` joins its parts with. */
  const CRLF: string := "\r\n"

  predicate EndsWith(s: string, suffix: string)
  {
    |suffix| <= |s| && s[|s| - |suffix|..] == suffix
  }

  /**
   * `parts.join(sep)` for a slice of strings: the parts in order with `sep`
   * between neighbours; the empty slice joins to the empty string.
   */
  function Join(parts: seq<string>, sep: string): (r: string)
    ensures |parts| > 0 ==> parts[0] <= r
    ensures |parts| > 0 ==> EndsWith(r, parts[|parts| - 1])
    ensures |parts| == 0 ==> r == ""
  {
    if |parts| == 0 then ""
    else if |parts| == 1 then parts[0]
    else Join(parts[..|parts| - 1], sep) + sep + parts[|parts| - 1]
  }

  /** Joining one more part adds the separator and that part at the end. */
  lemma JoinSnoc(parts: seq<string>, sep: string, last: string)
    requires |parts| > 0
    ensures Join(parts + [last], sep) == Join(parts, sep) + sep + last
  {
    assert (parts + [last])[..|parts|] == parts;
  }

  /** Joining a concatenation is joining the halves around one separator. */
  lemma {:induction false} JoinAppend(a: seq<string>, b: seq<string>, sep: string)
    requires |a| > 0 && |b| > 0
    ensures Join(a + b, sep) == Join(a, sep) + sep + Join(b, sep)
  {
    var n := |b| - 1;
    if n == 0 {
      assert a + b == a + [b[0]];
      JoinSnoc(a, sep, b[0]);
    } else {
      var init := b[..n];
      assert b == init + [b[n]];
      assert a + b == (a + init) + [b[n]];
      var left, middle := Join(a, sep), Join(init, sep);
      calc {
        Join(a + b, sep);
        { JoinSnoc(a + init, sep, b[n]); }
        Join(a + init, sep) + sep + b[n];
        { JoinAppend(a, init, sep); }
        (left + sep + middle) + sep + b[n];
        left + sep + (middle + sep + b[n]);
        { JoinSnoc(init, sep, b[n]); }
        left + sep + Join(b, sep);
      }
    }
  }

  /** Number of bytes in the UTF-8 encoding of one Unicode scalar value. */
  function CharUtf8Length(c: char): (n: nat)
    ensures 1 <= n <= 4
    ensures n == 1 <==> c as int < 0x80
  {
    if c as int < 0x80 then 1
    else if c as int < 0x800 then 2
    else if c as int < 0x1_0000 then 3
    else 4
  }

  /** `s.len()` for a Rust string: the length of its UTF-8 encoding in bytes. */
  function Utf8Length(s: string): (n: nat)
    ensures |s| <= n <= 4 * |s|
  {
    if s == [] then 0 else Utf8Length(s[..|s| - 1]) + CharUtf8Length(s[|s| - 1])
  }

  lemma {:induction false} Utf8LengthAppend(a: string, b: string)
    ensures Utf8Length(a + b) == Utf8Length(a) + Utf8Length(b)
  {
    if b == [] {
      assert a + b == a;
    } else {
      var init := b[..|b| - 1];
      assert b == init + [b[|b| - 1]];
      assert (a + b)[..|a + b| - 1] == a + init;
      Utf8LengthAppend(a, init);
    }
  }

  predicate IsAscii(s: string)
  {
    forall i :: 0 <= i < |s| ==> s[i] as int < 0x80
  }

  /** An ASCII string has one byte per character. */
  lemma {:induction false} AsciiUtf8Length(s: string)
    requires IsAscii(s)
    ensures Utf8Length(s) == |s|
  {
    if s != [] {
      AsciiUtf8Length(s[..|s| - 1]);
    }
  }

  /** Total UTF-8 length of a sequence of strings. */
  function TotalUtf8Length(parts: seq<string>): nat
  {
    if parts == [] then 0
    else TotalUtf8Length(parts[..|parts| - 1]) + Utf8Length(parts[|parts| - 1])
  }

  /**
   * The byte length of a joined string: the byte lengths of the parts plus one
   * separator between each pair of neighbours.
   */
  lemma {:induction false} JoinUtf8Length(parts: seq<string>, sep: string)
    requires |parts| > 0
    ensures Utf8Length(Join(parts, sep)) == TotalUtf8Length(parts) + (|parts| - 1) * Utf8Length(sep)
  {
    if |parts| > 1 {
      var init := parts[..|parts| - 1];
      var last := parts[|parts| - 1];
      var joined := Join(init, sep);
      assert Join(parts, sep) == joined + sep + last;
      JoinUtf8Length(init, sep);
      Utf8LengthAppend(joined, sep);
      Utf8LengthAppend(joined + sep, last);
      GapsSnoc(|init|, Utf8Length(sep));
    }
  }

  /** One more part adds one more separator's worth of bytes. */
  lemma GapsSnoc(n: nat, k: nat)
    requires n > 0
    ensures (n + 1 - 1) * k == (n - 1) * k + k
  {
  }
}
