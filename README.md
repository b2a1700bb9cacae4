# iron-test multipart encoder and request helpers, in Dafny

This project models the core of `iron-test`, a Rust library for testing Iron
HTTP handlers in-process. The model has two parts.

- **The multipart/form-data body encoder** (`src/request/multipart.rs`). A
  `MultipartBody` holds a 32-character boundary and a list of string parts.
  `write` appends a text field and `upload` appends a file. Each entry adds
  three parts: the marker `--<boundary>`, a `Content-Disposition` header line,
  and the value. `for_request` appends the closing marker `--<boundary>--` and
  joins the parts with CRLF. `set_headers` advertises the boundary in
  `Content-Type`. This follows the delimiter layout of section 5.1.1 of
  RFC 2046 and the form-data disposition of section 4.2 of RFC 7578.
- **The request helpers**, in the library's two versions. `src/request/mod.rs`
  takes bodies that render themselves (`StringBody` or a multipart body).
  `src/request.rs` takes plain strings. Both versions pick an empty body for
  GET, DELETE, OPTIONS and HEAD. Both set `Content-Length` to the body's byte
  length. They differ on `User-Agent`: `mod.rs` always overwrites it with
  `iron-test`, and `request.rs` sets it only when the caller gave none.

Files:

- `wrappers.dfy` (`Wrappers`): `Option`, and `Outcome`, which records a Rust panic as `Panic(message)`.
- `text.dfy` (`Text`): `Join` (Rust's slice `join`) and `Utf8Length` (a Rust string's `len()`), with their lemmas.
- `http.dfy` (`Http`): methods, typed header values in a `map<string, HeaderValue>`, the media type and the request a handler receives.
- `multipart.dfy` (`Multipart`): entries, paths, the file system, the part layout and the class `MultipartBody`.
- `body_requests.dfy` (`BodyRequests`): `src/request/mod.rs`.
- `string_requests.dfy` (`StringRequests`): `src/request.rs`.

The class `MultipartBody` has the fields `boundary` and `parts`. It also has a
ghost field `log`, which lists what has been written: one `Part(header, value)`
per entry and one `Close` per `for_request`. Its invariant `Valid()` says that
`parts` is exactly `Layout(boundary, log)`. Every method may change only
`parts` and `log`, so the boundary never changes after construction.
`Encode(boundary, log)` is the text that `for_request` returns. The lemmas
about `Layout` and `Encode` state the wire format.
`ParseDisposition` is a reader written only for the proofs; the library has
none. The round-trip lemmas use it to show that a header line determines its
key and, for a file, its file name.

Modelling choices:

- **Randomness.** `generate_boundary` takes 32 picks from rand's 62-character
  ASCII charset. The picks are a parameter (`draws`, indices into the charset).
- **Files.** The file system is a `map<Path, OpenResult>`, and a path missing
  from it fails with "No such file or directory (os error 2)". `Opened(contents)`
  holds the text that reading the file leaves behind. `read_to_string` errors
  are ignored (`multipart.rs:80`), so this text may be partial.
- **Paths.** A path is a sequence of components, as
  `std::path::Path::components` yields them. `file_name` is the last component
  when that component is a normal name.
- **Panics.** An upload that panics returns `Panic(message)`. Its `ensures`
  states which parts were already pushed. When `file_name()` is `None`, only
  the marker was pushed. When the open fails, the marker and the header line
  were pushed. `Valid()` is not promised after a panic.

What the code emits, as the model states it:

- A file entry's header reads `filename = "<name>"`, with spaces around `=`
  (`multipart.rs:71`). Section 4.2 of RFC 7578 writes `filename="<name>"`
  without spaces.
- Every header line already ends in CRLF (`multipart.rs:52`, `:71`), and the
  join adds another (`multipart.rs:178`). So on the wire a blank line separates
  each header from its value, which is the blank line that section 5.1.1 of
  RFC 2046 puts between a body part's headers and its content.

The trait `RequestBody` in `src/request/mod.rs:100-106` declares
`for_request(&self) -> &str` and `set_headers(&self, &Headers)`. The multipart
implementation (`multipart.rs:175`, `:182`) takes `&mut self` and
`&mut Headers`, and the model follows the implementation. `post_multipart`
passes the finalized `String` to `request`, and the model treats it as a
`StringBody`.

## Model

| member | source | states |
|---|---|---|
| `Text.Join` | src/request/multipart.rs:178 | the joined text starts with the first part and ends with the last; no parts join to "" |
| `Text.JoinAppend` | src/request/multipart.rs:178 | joining a concatenation is joining each half with one separator between them |
| `Text.Utf8Length` | src/request/mod.rs:72 | a string's byte length is between its character count and four times that |
| `Text.Utf8LengthAppend` | src/request.rs:56 | byte length adds over concatenation |
| `Text.AsciiUtf8Length` | src/request.rs:56 | an ASCII string has exactly one byte per character |
| `Text.JoinUtf8Length` | src/request/mod.rs:72 | a joined body's byte length is the sum of the parts' byte lengths plus one separator per gap |
| `Http.FormData` | src/request/multipart.rs:183-185 | the form-data media type's `boundary` parameter is the given boundary |
| `Http.FormDataText` | src/request/multipart.rs:183-185 | the header value reads `multipart/form-data; boundary=<boundary>`, unquoted |
| `Multipart.GenerateBoundary` | src/request/multipart.rs:167-169 | the boundary has exactly BOUNDARY_LENGTH = 32 alphanumeric characters, the i-th being the charset character at the i-th pick |
| `Multipart.FullBoundary` | src/request/multipart.rs:163-165 | the marker is two characters longer than the boundary and ends with it |
| `Multipart.ClosingBoundary` | src/request/multipart.rs:176 | the closing marker extends the entry marker by two characters |
| `Multipart.Entry.Headers` | src/request/multipart.rs:51-72 | text and file header lines start with the disposition and key and end with `"` CRLF; a file header names the path's file name; a path with no file name panics with the unwrap message |
| `Multipart.Entry.Value` | src/request/multipart.rs:55-87 | a text value is returned verbatim; a file value is the opened file's text; a failed open panics with the I/O error's message |
| `Multipart.MissingFilePanics` | src/request/multipart.rs:195-204 | reading `/invalid/file` panics with "No such file or directory (os error 2)" |
| `Multipart.TextHeaderRoundTrip` | src/request/multipart.rs:51-53 | a text header line reads back as its key with no file name, when the key has no quote |
| `Multipart.FileHeaderRoundTrip` | src/request/multipart.rs:69-72 | a file header line reads back as its key and file name, when neither has a quote |
| `Multipart.HeadersRoundTrip` | src/request/multipart.rs:51-72 | when the key and the file name have no quote, reading a header line back gives the key, and the file name for a file entry |
| `Multipart.UnescapedKeyCollision` | src/request/multipart.rs:52 | keys are not escaped, so a text key holding `"; filename = "` yields the same line as a file entry |
| `Multipart.LayoutAppend` | src/request/multipart.rs:31-41 | the parts of two successive writes are the first write's parts followed by the second's, with earlier parts unchanged |
| `Multipart.LayoutOfEntries` | src/request/multipart.rs:122-161 | entry i occupies parts 3i, 3i+1 and 3i+2, in the order marker, header, value |
| `Multipart.EncodeEmpty` | src/request/multipart.rs:175-179 | a body with no entries finalizes to exactly the closing marker |
| `Multipart.EncodeEndsWithClosing` | src/request/multipart.rs:175-179 | the finalized body is the joined earlier parts, a CRLF, then the closing marker |
| `Multipart.EncodePart` | src/request/multipart.rs:175-179 | a leading entry puts its marker, header and value, each followed by CRLF, before the rest of the body |
| `Multipart.TextEntryOnWire` | src/request/multipart.rs:52 | on the wire a text field's header line is followed by a blank line (`"\r\n\r\n`) and then the value |
| `Multipart.FileEntryOnWire` | src/request/multipart.rs:71 | on the wire a file's header line, with ` = ` before the file name, is followed by a blank line and then the contents |
| `Multipart.SingleEntry` | src/request/multipart.rs:175-179 | a form with one entry is that entry's text followed by the closing marker |
| `Multipart.FinalizeTwice` | src/request/multipart.rs:175-179 | finalizing again appends CRLF and a second closing marker, so the result differs |
| `Multipart.EmptyBodyLength` | src/request/multipart.rs:175-179 | an empty form is 36 bytes long |
| `Multipart.MultipartBody.constructor` | src/request/multipart.rs:103-108 | a new body has a valid 32-character boundary, no parts and an empty log |
| `Multipart.MultipartBody.WriteHeaders` | src/request/multipart.rs:31-35 | pushes the marker, then the header line unless computing it panics |
| `Multipart.MultipartBody.WriteValue` | src/request/multipart.rs:39-41 | pushes the value unless computing it panics |
| `Multipart.MultipartBody.Write` | src/request/multipart.rs:122-130 | appends exactly marker, text header, value; earlier parts and the boundary are unchanged; the invariant holds |
| `Multipart.MultipartBody.Upload` | src/request/multipart.rs:153-161 | on success appends marker, file header, contents; otherwise reports the panic and the parts already pushed |
| `Multipart.MultipartBody.ForRequest` | src/request/multipart.rs:175-179 | appends one closing marker and returns every part joined by CRLF, which is `Encode` of the earlier log |
| `Multipart.MultipartBody.SetHeaders` | src/request/multipart.rs:182-186 | sets `Content-Type` to form-data with this body's boundary, keeps every other header and leaves the parts alone |
| `BodyRequests.NewStringBody` | src/request/mod.rs:115-129 | a string body renders as the given text and adds no headers |
| `BodyRequests.StampedHeaders` | src/request/mod.rs:83-84 | the user agent is always `iron-test`, the content length is the body's byte length, every other header is kept |
| `BodyRequests.Request` | src/request/mod.rs:65-97 | the body sets its headers and is rendered once; then the user agent and content length are stamped |
| `BodyRequests.Get` | src/request/mod.rs:20-22 | GET with an empty body and content length 0 |
| `BodyRequests.Post` | src/request/mod.rs:25-27 | POST forwarding the caller's body |
| `BodyRequests.PostMultipart` | src/request/mod.rs:32-36 | finalizes the body once; Content-Type carries the same boundary that closes the body |
| `BodyRequests.Patch` | src/request/mod.rs:39-41 | PATCH forwarding the caller's body |
| `BodyRequests.Put` | src/request/mod.rs:44-46 | PUT forwarding the caller's body |
| `BodyRequests.Delete` | src/request/mod.rs:49-51 | DELETE with an empty body and content length 0 |
| `BodyRequests.Options` | src/request/mod.rs:54-56 | OPTIONS with an empty body and content length 0 |
| `BodyRequests.Head` | src/request/mod.rs:59-61 | HEAD with an empty body and content length 0 |
| `BodyRequests.GetWithCustomAgent` | src/request/mod.rs:83 | a caller's user agent is replaced by `iron-test` |
| `BodyRequests.PostTextField` | examples/multipart_test.rs:46-58 | posting `key` = `my value` sends the exact form text and advertises its boundary |
| `BodyRequests.PostFileField` | examples/multipart_test.rs:60-76 | uploading `/tmp/file.txt` sends the header with `file.txt` and the contents `Hello, world!` |
| `StringRequests.StampedHeaders` | src/request.rs:67-70 | a caller's user agent is kept, otherwise `iron-test`; content length is the body's byte length; every other header is kept |
| `StringRequests.Request` | src/request.rs:51-83 | sends the body verbatim with the headers stamped |
| `StringRequests.Get` | src/request.rs:15-17 | GET with an empty body and content length 0 |
| `StringRequests.Post` | src/request.rs:20-22 | POST with the caller's text verbatim |
| `StringRequests.Patch` | src/request.rs:25-27 | PATCH with the caller's text verbatim |
| `StringRequests.Put` | src/request.rs:30-32 | PUT with the caller's text verbatim |
| `StringRequests.Delete` | src/request.rs:35-37 | DELETE with an empty body and content length 0 |
| `StringRequests.Options` | src/request.rs:40-42 | OPTIONS with an empty body and content length 0 |
| `StringRequests.Head` | src/request.rs:45-47 | HEAD with an empty body and content length 0 |
| `StringRequests.GetWithoutAgent` | src/request.rs:264-271 | without a caller user agent the handler sees `iron-test` |
| `StringRequests.GetWithCustomAgent` | src/request.rs:273-281 | a caller-supplied `CustomAgent/1.0` reaches the handler unchanged |

## Left out

- Building the hyper request is not modelled. This covers the body reader, the sized reader, the mock stream, socket addresses, the extension map and the call to `handler.handle` (`src/request/mod.rs:73-96`, `src/request.rs:57-82`). These are library plumbing and an opaque handler. The model returns the method, headers and body text the handler would see.
- URL parsing (`Url::parse(path).unwrap()`) belongs to another library. The model has no path argument.
- Real randomness in `generate_boundary` is a parameter, as described above.
- Real file I/O is a lookup in the file-system map. Only the "not found" error is spelled out. Other open errors carry their own description and code. A partial read is represented only by the text stored for the path.
- `to_str().unwrap()` on a file name that is not valid UTF-8 is not modelled, because Dafny strings are always Unicode.
- The `u64` cast of the content length is not modelled. A `usize` always fits in a `u64`.
- Handlers, routers and multipart parsing on the handler's side (`examples/*.rs`, the test handlers) are not part of this model. The two scenario methods stop at the request text the handler receives.
- `src/mock_stream.rs`, `src/response.rs`, `src/project_builder.rs` and `src/lib.rs` are I/O or delegation and are not part of this model.
- `Multipart.MultipartBody.Upload`: after a panic it states the parts exactly but no longer promises `Valid()`. In Rust the panic unwinds and the body is not used again.
- Header names are compared case-sensitively. hyper compares them without regard to case, so `headers.has::<UserAgent>()` (`src/request.rs:67`) also finds a caller header set raw as `user-agent`. The model assumes every caller header name is written in its canonical spelling (`User-Agent`, `Content-Type`, `Content-Length`).
- Paths are taken to be what `Path::components` yields. The `Path` type also admits sequences it never yields, such as `[RootDir, Normal("tmp"), CurDir]`, and for those `FileName` need not agree with Rust.
