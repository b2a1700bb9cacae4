/**
 * The multipart/form-data body encoder (`src/request/multipart.rs`).
 *
 * A `MultipartBody` keeps a boundary token and a list of string parts. Each
 * entry written to it appends three parts: the marker `--<boundary>`, a
 * `Content-Disposition` header line and the entry's value. Finalizing appends
 * the closing marker `--<boundary>--` and joins every part with CRLF, the
 * delimiter layout of section 5.1.1 of RFC 2046 with the form-data
 * disposition of section 4.2 of RFC 7578.
 */
module Multipart {
  import opened Wrappers
  import opened Text
  import Http

  /** Number of characters in a generated boundary. */
  const BOUNDARY_LENGTH: nat := 32

  /** Size of the alphabet `A-Z a-z 0-9` that boundary characters are drawn from. */
  const ALPHABET_SIZE: nat := 62

  /** Every header line starts with this text, followed by the key. */
  const DISPOSITION: string := "Content-Disposition: form-data; name=\""

  /** Between the key and the file name of a file entry's header (spaces around `=`). */
  const FILENAME_PARAM: string := "\"; filename = \""

  /** Every header line ends with a closing quote and CRLF. */
  const HEADER_END: string := "\"\r\n"

  /** The message of a panic raised by `Option::unwrap` on `None`. */
  const UNWRAP_NONE: string := "called `Option::unwrap()` on a `None` value"

  // ---------------------------------------------------------------------------
  // Boundary generation

  /**
   * The character at index `d` of rand's ASCII charset
   * `ABCDEFGHIJKLMNOPQRSTUVWXYZabcdefghijklmnopqrstuvwxyz0123456789`.
   */
  function AlphabetChar(d: nat): char
    requires d < ALPHABET_SIZE
  {
    if d < 26 then ('A' as int + d) as char
    else if d < 52 then ('a' as int + (d - 26)) as char
    else ('0' as int + (d - 52)) as char
  }

  predicate IsAlphanumeric(c: char)
  {
    'A' <= c <= 'Z' || 'a' <= c <= 'z' || '0' <= c <= '9'
  }

  predicate ValidBoundary(boundary: string)
  {
    |boundary| == BOUNDARY_LENGTH && forall i :: 0 <= i < |boundary| ==> IsAlphanumeric(boundary[i])
  }

  /**
   * `generate_boundary`: the first `BOUNDARY_LENGTH` characters of an endless
   * stream of random picks from the charset. The random source is a parameter:
   * `draws` holds the indices it picked.
   */
  function GenerateBoundary(draws: seq<nat>): (boundary: string)
    requires |draws| >= BOUNDARY_LENGTH
    requires forall i :: 0 <= i < |draws| ==> draws[i] < ALPHABET_SIZE
    ensures ValidBoundary(boundary)
    ensures forall i :: 0 <= i < BOUNDARY_LENGTH ==> boundary[i] == AlphabetChar(draws[i])
  {
    seq(BOUNDARY_LENGTH, i requires 0 <= i < BOUNDARY_LENGTH => AlphabetChar(draws[i]))
  }

  /** A boundary is plain ASCII, so each of its characters is one byte on the wire. */
  lemma ValidBoundaryIsAscii(boundary: string)
    requires ValidBoundary(boundary)
    ensures IsAscii(boundary)
  {
  }

  /** `full_boundary`: the marker that opens every entry. */
  function FullBoundary(boundary: string): (marker: string)
    ensures |marker| == |boundary| + 2 && marker[2..] == boundary
  {
    "--" + boundary
  }

  /** The marker that `for_request` appends to close the body. */
  function ClosingBoundary(boundary: string): (marker: string)
    ensures FullBoundary(boundary) <= marker && |marker| == |boundary| + 4
  {
    FullBoundary(boundary) + "--"
  }

  // ---------------------------------------------------------------------------
  // Paths and the file system

  /**
   * One component of a path, as `std::path::Path::components` yields it.
   * A `Path` is the list that `components` returns, so it is already
   * normalised: `RootDir` and `CurDir` can only come first, `.` in the middle
   * and repeated or trailing separators are gone. `/tmp/.` is therefore
   * `[RootDir, Normal("tmp")]`. Sequences that `components` never yields are
   * not excluded by the type, and `FileName` of those follows the definition
   * below rather than Rust.
   */
  datatype Component = RootDir | CurDir | ParentDir | Normal(name: string)

  type Path = seq<Component>

  /** `Path::file_name`: the last component when it is a normal name. */
  function FileName(path: Path): Option<string>
  {
    if |path| > 0 && path[|path| - 1].Normal? then Some(path[|path| - 1].name) else None
  }

  /** An operating-system error, displayed as `<description> (os error <code>)`. */
  datatype IoError = IoError(description: string, code: nat)
  {
    function Message(): string
    {
      description + " (os error " + Decimal(code) + ")"
    }
  }

  const NOT_FOUND: IoError := IoError("No such file or directory", 2)

  function DecimalDigit(d: nat): char
    requires d < 10
  {
    ('0' as int + d) as char
  }

  function Decimal(n: nat): string
  {
    if n < 10 then [DecimalDigit(n)] else Decimal(n / 10) + [DecimalDigit(n % 10)]
  }

  /**
   * What opening a path gives. `Opened` carries the text that reading the
   * file to a string leaves behind; a read error after a successful open is
   * ignored, so this may be partial.
   */
  datatype OpenResult = Opened(contents: string) | Failed(error: IoError)

  /** The file system the uploads read from; a path it does not list is missing. */
  type FileSystem = map<Path, OpenResult>

  /** `File::open`. */
  function Open(fs: FileSystem, path: Path): OpenResult
  {
    if path in fs then fs[path] else Failed(NOT_FOUND)
  }

  // ---------------------------------------------------------------------------
  // Entries

  /** The header line of a text entry. */
  function TextHeader(key: string): string
  {
    DISPOSITION + key + HEADER_END
  }

  /** The header line of a file entry whose path ends in `filename`. */
  function FileHeader(key: string, filename: string): string
  {
    DISPOSITION + key + FILENAME_PARAM + filename + HEADER_END
  }

  /** `MultipartTextEntry` and `MultipartFileEntry`. */
  datatype Entry = TextEntry(key: string, text: string) | FileEntry(key: string, path: Path)
  {
    /** `headers`: the entry's `Content-Disposition` line; panics when a file path has no file name. */
    function Headers(): (r: Outcome<string>)
      ensures r.Done? <==> TextEntry? || FileName(path).Some?
      ensures r.Done? ==> DISPOSITION + key <= r.value && EndsWith(r.value, HEADER_END)
      ensures r.Done? && TextEntry? ==> r.value == TextHeader(key)
      ensures r.Done? && FileEntry? ==> r.value == FileHeader(key, FileName(path).value)
      ensures r.Panic? ==> r.message == UNWRAP_NONE
    {
      match this
      case TextEntry(key, _) => Done(TextHeader(key))
      case FileEntry(key, path) =>
        match FileName(path)
        case None => Panic(UNWRAP_NONE)
        case Some(name) => Done(FileHeader(key, name))
    }

    /**
     * `value`: a text entry's string verbatim; a file entry's contents, or a
     * panic carrying the I/O error when the file cannot be opened.
     */
    function Value(fs: FileSystem): (r: Outcome<string>)
      ensures TextEntry? ==> r == Done(text)
      ensures FileEntry? ==> (r.Done? <==> Open(fs, path).Opened?)
      ensures FileEntry? && r.Done? ==> r.value == Open(fs, path).contents
      ensures FileEntry? && r.Panic? ==> r.message == Open(fs, path).error.Message()
    {
      match this
      case TextEntry(_, text) => Done(text)
      case FileEntry(_, path) =>
        match Open(fs, path)
        case Opened(contents) => Done(contents)
        case Failed(error) => Panic(error.Message())
    }
  }

  /** Opening a path the file system does not have panics with the "not found" message. */
  lemma MissingFilePanics(key: string, fs: FileSystem)
    requires [RootDir, Normal("invalid"), Normal("file")] !in fs
    ensures FileEntry(key, [RootDir, Normal("invalid"), Normal("file")]).Value(fs)
         == Panic("No such file or directory (os error 2)")
  {
  }

  // ---------------------------------------------------------------------------
  // Reading a header line back

  /** What a `Content-Disposition` line says: the field name and, for a file, its file name. */
  datatype Disposition = Disposition(name: string, filename: Option<string>)

  predicate NoQuote(s: string)
  {
    forall i :: 0 <= i < |s| ==> s[i] != '"'
  }

  /** Index of the first `"` in `s`, or `|s|` when there is none. */
  function QuoteIndex(s: string): (i: nat)
    ensures i <= |s|
    ensures NoQuote(s[..i])
    ensures i < |s| ==> s[i] == '"'
  {
    if s == [] then 0
    else if s[0] == '"' then 0
    else
      var j := QuoteIndex(s[1..]);
      assert s[..1 + j] == [s[0]] + s[1..][..j];
      1 + j
  }

  /** The first quote after a quote-free prefix is the one that follows it. */
  lemma {:induction false} QuoteIndexAfter(key: string, rest: string)
    requires NoQuote(key) && |rest| > 0 && rest[0] == '"'
    ensures QuoteIndex(key + rest) == |key|
  {
    if key == [] {
      assert key + rest == rest;
    } else {
      assert (key + rest)[0] == key[0];
      assert (key + rest)[1..] == key[1..] + rest;
      QuoteIndexAfter(key[1..], rest);
    }
  }

  /**
   * Reads a header line as this module writes it: the field name up to the
   * first quote, then either the line end or a quoted file name.
   */
  function ParseDisposition(line: string): Option<Disposition>
  {
    if !(DISPOSITION <= line) then None
    else
      var rest := line[|DISPOSITION|..];
      var i := QuoteIndex(rest);
      var tail := rest[i..];
      if tail == HEADER_END then Some(Disposition(rest[..i], None))
      else if |FILENAME_PARAM| + |HEADER_END| <= |tail| && FILENAME_PARAM <= tail && EndsWith(tail, HEADER_END) then
        var name := tail[|FILENAME_PARAM|..|tail| - |HEADER_END|];
        if NoQuote(name) then Some(Disposition(rest[..i], Some(name))) else None
      else None
  }

  lemma TextHeaderRoundTrip(key: string)
    requires NoQuote(key)
    ensures ParseDisposition(TextHeader(key)) == Some(Disposition(key, None))
  {
    var line := TextHeader(key);
    var rest := key + HEADER_END;
    assert line == DISPOSITION + rest;
    assert DISPOSITION <= line;
    assert line[|DISPOSITION|..] == rest;
    QuoteIndexAfter(key, HEADER_END);
    assert rest[|key|..] == HEADER_END;
    assert rest[..|key|] == key;
  }

  lemma FileHeaderRoundTrip(key: string, filename: string)
    requires NoQuote(key) && NoQuote(filename)
    ensures ParseDisposition(FileHeader(key, filename)) == Some(Disposition(key, Some(filename)))
  {
    var line := FileHeader(key, filename);
    var tail := FILENAME_PARAM + filename + HEADER_END;
    var rest := key + tail;
    assert line == DISPOSITION + rest;
    assert DISPOSITION <= line;
    assert line[|DISPOSITION|..] == rest;
    QuoteIndexAfter(key, tail);
    assert rest[|key|..] == tail;
    assert rest[..|key|] == key;
    assert tail != HEADER_END by { assert |tail| > |HEADER_END|; }
    assert FILENAME_PARAM <= tail;
    assert EndsWith(tail, HEADER_END);
    assert tail[|FILENAME_PARAM|..|tail| - |HEADER_END|] == filename;
  }

  /**
   * A header line gives back the key and file name it was written from, as
   * long as neither contains a quote (keys are not escaped).
   */
  lemma HeadersRoundTrip(entry: Entry)
    requires NoQuote(entry.key)
    requires entry.FileEntry? && FileName(entry.path).Some? ==> NoQuote(FileName(entry.path).value)
    ensures entry.Headers().Done? ==>
      ParseDisposition(entry.Headers().value)
        == Some(Disposition(entry.key, if entry.TextEntry? then None else FileName(entry.path)))
  {
    if entry.TextEntry? {
      TextHeaderRoundTrip(entry.key);
    } else if FileName(entry.path).Some? {
      FileHeaderRoundTrip(entry.key, FileName(entry.path).value);
    }
  }

  /** Because keys are not escaped, a text key with a quote can read like a file entry's header. */
  lemma UnescapedKeyCollision()
    ensures TextEntry("a\"; filename = \"b", "").Headers() == FileEntry("a", [Normal("b")]).Headers()
  {
    var key := "a\"; filename = \"b";
    assert FileName([Normal("b")]) == Some("b");
    assert key == "a" + FILENAME_PARAM + "b";
    calc {
      TextHeader(key);
      DISPOSITION + key + HEADER_END;
      DISPOSITION + ("a" + FILENAME_PARAM + "b") + HEADER_END;
      DISPOSITION + "a" + FILENAME_PARAM + "b" + HEADER_END;
      FileHeader("a", "b");
    }
  }

  // ---------------------------------------------------------------------------
  // The part layout

  /** What has been written to a body: an entry (header and value) or a closing marker. */
  datatype Segment = Part(header: string, value: string) | Close

  /** The parts one segment contributes: marker, header, value for an entry. */
  function SegmentParts(boundary: string, segment: Segment): seq<string>
  {
    match segment
    case Part(header, value) => [FullBoundary(boundary), header, value]
    case Close => [ClosingBoundary(boundary)]
  }

  /** The parts of a body that has written `log`, in order. */
  function Layout(boundary: string, log: seq<Segment>): seq<string>
  {
    if log == [] then []
    else Layout(boundary, log[..|log| - 1]) + SegmentParts(boundary, log[|log| - 1])
  }

  lemma LayoutSnoc(boundary: string, log: seq<Segment>, segment: Segment)
    ensures Layout(boundary, log + [segment]) == Layout(boundary, log) + SegmentParts(boundary, segment)
  {
    assert (log + [segment])[..|log|] == log;
  }

  /** Writing two logs one after the other lays their parts out one after the other. */
  lemma {:induction false} LayoutAppend(boundary: string, first: seq<Segment>, second: seq<Segment>)
    ensures Layout(boundary, first + second) == Layout(boundary, first) + Layout(boundary, second)
  {
    if second == [] {
      assert first + second == first;
    } else {
      var init := second[..|second| - 1];
      var last := second[|second| - 1];
      assert second == init + [last];
      assert first + second == (first + init) + [last];
      calc {
        Layout(boundary, first + second);
        { LayoutSnoc(boundary, first + init, last); }
        Layout(boundary, first + init) + SegmentParts(boundary, last);
        { LayoutAppend(boundary, first, init); }
        Layout(boundary, first) + Layout(boundary, init) + SegmentParts(boundary, last);
        { LayoutSnoc(boundary, init, last); }
        Layout(boundary, first) + Layout(boundary, second);
      }
    }
  }

  predicate AllParts(log: seq<Segment>)
  {
    forall i :: 0 <= i < |log| ==> log[i].Part?
  }

  /**
   * Strict ordering: the i-th entry occupies parts 3i, 3i+1 and 3i+2, in the
   * order marker, header, value.
   */
  lemma {:induction false} LayoutOfEntries(boundary: string, log: seq<Segment>, i: nat)
    requires AllParts(log) && i < |log|
    ensures |Layout(boundary, log)| == 3 * |log|
    ensures Layout(boundary, log)[3 * i] == FullBoundary(boundary)
    ensures Layout(boundary, log)[3 * i + 1] == log[i].header
    ensures Layout(boundary, log)[3 * i + 2] == log[i].value
  {
    var init := log[..|log| - 1];
    if |log| > 1 {
      LayoutOfEntries(boundary, init, if i < |init| then i else 0);
    } else {
      assert init == [];
    }
  }

  /** The text `for_request` returns for a body that has written `log`. */
  function Encode(boundary: string, log: seq<Segment>): string
  {
    Join(Layout(boundary, log + [Close]), CRLF)
  }

  /** With no entries the body is exactly the closing marker. */
  lemma EncodeEmpty(boundary: string)
    ensures Encode(boundary, []) == ClosingBoundary(boundary)
  {
    assert [] + [Close] == [Close];
    LayoutSnoc(boundary, [], Close);
  }

  /** The body always ends with the closing marker, after a CRLF when anything precedes it. */
  lemma EncodeEndsWithClosing(boundary: string, log: seq<Segment>)
    ensures Encode(boundary, log) ==
      (if log == [] then "" else Join(Layout(boundary, log), CRLF) + CRLF) + ClosingBoundary(boundary)
  {
    if log == [] {
      EncodeEmpty(boundary);
    } else {
      var parts := Layout(boundary, log);
      assert |parts| > 0 by {
        assert parts == Layout(boundary, log[..|log| - 1]) + SegmentParts(boundary, log[|log| - 1]);
      }
      calc {
        Encode(boundary, log);
        Join(Layout(boundary, log + [Close]), CRLF);
        { LayoutSnoc(boundary, log, Close); }
        Join(parts + [ClosingBoundary(boundary)], CRLF);
        { JoinSnoc(parts, CRLF, ClosingBoundary(boundary)); }
        Join(parts, CRLF) + CRLF + ClosingBoundary(boundary);
      }
    }
  }

  /** The text one entry contributes to the body: marker, header and value, each followed by CRLF. */
  function EntryWire(boundary: string, header: string, value: string): string
  {
    FullBoundary(boundary) + CRLF + header + CRLF + value + CRLF
  }

  /** An entry at the front of the log puts its text at the front of the body. */
  lemma EncodePart(boundary: string, header: string, value: string, rest: seq<Segment>)
    ensures Encode(boundary, [Part(header, value)] + rest) == EntryWire(boundary, header, value) + Encode(boundary, rest)
  {
    var head := [Part(header, value)];
    assert head + rest + [Close] == head + (rest + [Close]);
    LayoutAppend(boundary, head, rest + [Close]);
    LayoutSnoc(boundary, [], Part(header, value));
    assert [] + head == head;
    var tail := Layout(boundary, rest + [Close]);
    LayoutSnoc(boundary, rest, Close);
    var parts := [FullBoundary(boundary), header, value];
    assert Layout(boundary, head) == parts;
    JoinAppend(parts, tail, CRLF);
    JoinSnoc([FullBoundary(boundary)], CRLF, header);
    assert [FullBoundary(boundary)] + [header] == parts[..2];
    JoinSnoc(parts[..2], CRLF, value);
    assert parts[..2] + [value] == parts;
  }

  /**
   * On the wire a text entry's header line is followed by a blank line: the
   * header ends in CRLF and the join adds another.
   */
  lemma TextEntryOnWire(boundary: string, key: string, value: string)
    ensures EntryWire(boundary, TextHeader(key), value)
         == "--" + boundary + "\r\n" + DISPOSITION + key + "\"\r\n\r\n" + value + "\r\n"
  {
    assert HEADER_END + CRLF == "\"\r\n\r\n";
  }

  /** The same for a file entry, whose header names the file with spaces around `=`. */
  lemma FileEntryOnWire(boundary: string, key: string, filename: string, contents: string)
    ensures EntryWire(boundary, FileHeader(key, filename), contents)
         == "--" + boundary + "\r\n" + DISPOSITION + key + "\"; filename = \"" + filename + "\"\r\n\r\n"
            + contents + "\r\n"
  {
    assert HEADER_END + CRLF == "\"\r\n\r\n";
  }

  /** A form holding one entry: that entry's text, then the closing marker. */
  lemma SingleEntry(boundary: string, header: string, value: string)
    ensures Encode(boundary, [Part(header, value)]) == EntryWire(boundary, header, value) + ClosingBoundary(boundary)
  {
    EncodePart(boundary, header, value, []);
    EncodeEmpty(boundary);
    assert [Part(header, value)] + [] == [Part(header, value)];
  }

  /** Finalizing again appends a second closing marker: `for_request` is not idempotent. */
  lemma FinalizeTwice(boundary: string, log: seq<Segment>)
    ensures Encode(boundary, log + [Close]) == Encode(boundary, log) + CRLF + ClosingBoundary(boundary)
    ensures Encode(boundary, log + [Close]) != Encode(boundary, log)
  {
    LayoutSnoc(boundary, log, Close);
    LayoutSnoc(boundary, log + [Close], Close);
    JoinSnoc(Layout(boundary, log + [Close]), CRLF, ClosingBoundary(boundary));
    assert |Encode(boundary, log + [Close])| > |Encode(boundary, log)|;
  }

  /** The body of a form with no entries is 36 bytes long: two dashes, 32 boundary characters, two dashes. */
  lemma EmptyBodyLength(boundary: string)
    requires ValidBoundary(boundary)
    ensures Utf8Length(Encode(boundary, [])) == BOUNDARY_LENGTH + 4
  {
    EncodeEmpty(boundary);
    ValidBoundaryIsAscii(boundary);
    AsciiUtf8Length(boundary);
    AsciiUtf8Length("--");
    Utf8LengthAppend("--", boundary);
    Utf8LengthAppend("--" + boundary, "--");
  }

  // ---------------------------------------------------------------------------
  // The body builder

  /** `MultipartBody`: the boundary and the parts written so far. */
  class MultipartBody {
    var boundary: string
    var parts: seq<string>
    /** Everything written so far, one segment per entry or closing marker. */
    ghost var log: seq<Segment>

    /** The parts are exactly the layout of what has been written. */
    ghost predicate Valid()
      reads this
    {
      parts == Layout(boundary, log)
    }

    /** `new`: a fresh boundary drawn from `draws` and no parts. */
    constructor (draws: seq<nat>)
      requires |draws| >= BOUNDARY_LENGTH
      requires forall i :: 0 <= i < |draws| ==> draws[i] < ALPHABET_SIZE
      ensures Valid()
      ensures boundary == GenerateBoundary(draws) && ValidBoundary(boundary)
      ensures parts == [] && log == []
    {
      boundary := GenerateBoundary(draws);
      parts := [];
      log := [];
    }

    /** `write_headers`: push the marker, then the entry's header line. */
    method WriteHeaders(entry: Entry) returns (r: Outcome<()>)
      modifies this`parts
      ensures r == (if entry.Headers().Done? then Done(()) else Panic(entry.Headers().message))
      ensures parts == old(parts) + [FullBoundary(boundary)]
                       + (if entry.Headers().Done? then [entry.Headers().value] else [])
    {
      parts := parts + [FullBoundary(boundary)];
      var header := entry.Headers();
      if header.Panic? {
        return Panic(header.message);
      }
      parts := parts + [header.value];
      r := Done(());
    }

    /** `write_value`: push the entry's value. */
    method WriteValue(entry: Entry, fs: FileSystem) returns (r: Outcome<()>)
      modifies this`parts
      ensures r == (if entry.Value(fs).Done? then Done(()) else Panic(entry.Value(fs).message))
      ensures parts == old(parts) + (if entry.Value(fs).Done? then [entry.Value(fs).value] else [])
    {
      var value := entry.Value(fs);
      if value.Panic? {
        return Panic(value.message);
      }
      parts := parts + [value.value];
      r := Done(());
    }

    /** `write`: append a text entry's marker, header and value. */
    method Write(key: string, value: string)
      requires Valid()
      modifies this`parts, this`log
      ensures Valid()
      ensures log == old(log) + [Part(TextHeader(key), value)]
      ensures parts == old(parts) + [FullBoundary(boundary), TextHeader(key), value]
    {
      var entry := TextEntry(key, value);
      var _ := WriteHeaders(entry);
      var _ := WriteValue(entry, map[]);
      LayoutSnoc(boundary, log, Part(TextHeader(key), value));
      log := log + [Part(TextHeader(key), value)];
    }

    /**
     * `upload`: append a file entry's marker, header and contents. Panics when
     * the path has no file name (after the marker is pushed) or when the file
     * cannot be opened (after the header is pushed).
     */
    method Upload(key: string, path: Path, fs: FileSystem) returns (r: Outcome<()>)
      requires Valid()
      modifies this`parts, this`log
      ensures r.Done? <==> FileName(path).Some? && Open(fs, path).Opened?
      ensures r.Done? ==> Valid()
      ensures r.Done? ==>
        var header := FileHeader(key, FileName(path).value);
        log == old(log) + [Part(header, Open(fs, path).contents)] &&
        parts == old(parts) + [FullBoundary(boundary), header, Open(fs, path).contents]
      ensures r.Panic? ==> log == old(log)
      ensures FileName(path).None? ==>
        r == Panic(UNWRAP_NONE) && parts == old(parts) + [FullBoundary(boundary)]
      ensures FileName(path).Some? && Open(fs, path).Failed? ==>
        r == Panic(Open(fs, path).error.Message()) &&
        parts == old(parts) + [FullBoundary(boundary), FileHeader(key, FileName(path).value)]
    {
      var entry := FileEntry(key, path);
      r := WriteHeaders(entry);
      if r.Panic? {
        return;
      }
      r := WriteValue(entry, fs);
      if r.Panic? {
        return;
      }
      var segment := Part(FileHeader(key, FileName(path).value), Open(fs, path).contents);
      LayoutSnoc(boundary, log, segment);
      log := log + [segment];
    }

    /** `for_request`: push the closing marker and join every part with CRLF. */
    method ForRequest() returns (body: string)
      modifies this`parts, this`log
      ensures parts == old(parts) + [ClosingBoundary(boundary)]
      ensures log == old(log) + [Close]
      ensures body == Join(parts, CRLF)
      ensures old(Valid()) ==> Valid() && body == Encode(boundary, old(log))
    {
      LayoutSnoc(boundary, log, Close);
      parts := parts + [ClosingBoundary(boundary)];
      log := log + [Close];
      body := Join(parts, CRLF);
    }

    /** `set_headers`: advertise the boundary in `Content-Type`; nothing else changes. */
    method SetHeaders(headers: Http.Headers) returns (updated: Http.Headers)
      ensures updated.Keys == headers.Keys + {Http.CONTENT_TYPE}
      ensures updated[Http.CONTENT_TYPE] == Http.ContentType(Http.FormData(boundary))
      ensures Http.BoundaryParam(updated[Http.CONTENT_TYPE].mime.params) == Some(boundary)
      ensures forall name :: name in headers && name != Http.CONTENT_TYPE ==> updated[name] == headers[name]
    {
      updated := headers[Http.CONTENT_TYPE := Http.ContentType(Http.FormData(boundary))];
    }
  }
}
