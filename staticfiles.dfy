// The static-file handler of the visualiser's web server: the extension
// and MIME type of a served file, and the routing decision of `handle`
// (the "/" rewrite, the ".." guard, 200 with the file or 404).

module StaticFiles {
  import opened Wrappers
  import opened JavaString

  /** `MIME_TYPES`: the content type of each known extension. */
  const MIME_TYPES: map<string, string> := map[
    "html" := "text/html",
    "js" := "application/javascript",
    "css" := "text/css",
    "json" := "application/json",
    "png" := "image/png",
    "jpg" := "image/jpeg",
    "jpeg" := "image/jpeg",
    "gif" := "image/gif",
    "svg" := "image/svg+xml",
    "ico" := "image/x-icon"
  ]

  /** The content type of every other extension. */
  const DEFAULT_MIME: string := "application/octet-stream"

  /** The page served for the URI "/". */
  const INDEX_PAGE: string := "/visualizer.html"

  const FORBIDDEN_TEXT: string := "403 Forbidden"
  const NOT_FOUND_PREFIX: string := "404 Not Found: "

  // ---------------------------------------------------------------------
  // Extensions and content types
  // ---------------------------------------------------------------------

  /**
   * `getFileExtension`: the lower-cased text after the last '.', or "" when
   * the name has no '.' or ends in one.
   */
  function FileExtension(name: string): (r: string)
    ensures r == "" <==> '.' !in name || name[|name| - 1] == '.'
    ensures '.' !in r
    ensures r != "" ==>
      exists k :: (0 <= k < |name| - 1 && name[k] == '.' && '.' !in name[k + 1..] && r == ToLower(name[k + 1..]))
  {
    var lastDot := LastIndexOf(name, '.');
    if lastDot >= 0 && lastDot < |name| - 1 then
      var ext := ToLower(name[lastDot + 1..]);
      assert forall i :: 0 <= i < |ext| ==> ext[i] != '.' by {
        forall i | 0 <= i < |ext| ensures ext[i] != '.' {
          assert name[lastDot + 1 + i] != '.';
        }
      }
      ext
    else
      ""
  }

  /** A name built as `base + "." + ext` has the extension `ext`, lower-cased, whatever `base` holds. */
  lemma ExtensionOfJoin(base: string, ext: string)
    requires ext != [] && '.' !in ext
    ensures FileExtension(base + "." + ext) == ToLower(ext)
  {
    var name := base + "." + ext;
    var k := |base|;
    assert name[k] == '.';
    assert name[k + 1..] == ext;
    assert forall j :: k < j < |name| ==> name[j] != '.' by {
      forall j | k < j < |name| ensures name[j] != '.' {
        assert name[j] == ext[j - k - 1];
      }
    }
    assert LastIndexOf(name, '.') == k;
  }

  /** `MIME_TYPES.getOrDefault(extension, "application/octet-stream")`. */
  function MimeType(ext: string): string
  {
    if ext in MIME_TYPES then MIME_TYPES[ext] else DEFAULT_MIME
  }

  /**
   * The default type is given exactly to the extensions the table does
   * not know; every other answer is the table's entry.
   */
  lemma MimeTypeDefault(ext: string)
    ensures MimeType(ext) == DEFAULT_MIME <==> ext !in MIME_TYPES
    ensures ext in MIME_TYPES ==> MimeType(ext) == MIME_TYPES[ext]
    ensures MimeType(ext) in MIME_TYPES.Values + {DEFAULT_MIME}
  {
    if ext in MIME_TYPES {
      assert ext in {"html", "js", "css", "json", "png", "jpg", "jpeg", "gif", "svg", "ico"};
    }
  }

  /** Upper- and lower-case spellings of a known extension get the same type: the extension is lower-cased first. */
  lemma MimeTypeIgnoresCase(base: string, ext: string)
    requires ext != [] && '.' !in ext
    ensures MimeType(FileExtension(base + "." + ext)) == MimeType(ToLower(ext))
    ensures MimeType(FileExtension(base + "." + ToLower(ext))) == MimeType(ToLower(ext))
  {
    ExtensionOfJoin(base, ext);
    var low := ToLower(ext);
    assert forall i :: 0 <= i < |low| ==> low[i] != '.' by {
      forall i | 0 <= i < |low| ensures low[i] != '.' {
        assert ext[i] != '.';
      }
    }
    ExtensionOfJoin(base, low);
    assert ToLower(low) == low;
  }

  // ---------------------------------------------------------------------
  // Text on the wire
  // ---------------------------------------------------------------------

  /** The UTF-8 bytes of one character. */
  function Utf8Char(c: char): (r: seq<bv8>)
    ensures 1 <= |r| <= 4
    ensures |r| == 1 <==> c as int < 0x80
  {
    var n := c as int;
    if n < 0x80 then [n as bv8]
    else if n < 0x800 then [(0xC0 + n / 64) as bv8, (0x80 + n % 64) as bv8]
    else if n < 0x1_0000 then [(0xE0 + n / 4096) as bv8, (0x80 + n / 64 % 64) as bv8, (0x80 + n % 64) as bv8]
    else [(0xF0 + n / 262144) as bv8, (0x80 + n / 4096 % 64) as bv8, (0x80 + n / 64 % 64) as bv8, (0x80 + n % 64) as bv8]
  }

  /** `s.getBytes()` under the UTF-8 default charset. */
  function Utf8(s: string): (r: seq<bv8>)
    ensures |r| >= |s|
    decreases |s|
  {
    if s == [] then [] else Utf8(s[..|s| - 1]) + Utf8Char(s[|s| - 1])
  }

  /** `s.length()`: the number of UTF-16 code units. */
  function Utf16Length(s: string): (n: nat)
    decreases |s|
  {
    if s == [] then 0 else Utf16Length(s[..|s| - 1]) + (if s[|s| - 1] as int < 0x1_0000 then 1 else 2)
  }

  predicate Ascii(s: string)
  {
    forall i :: 0 <= i < |s| ==> s[i] as int < 0x80
  }

  /** On ASCII text the character count, the UTF-16 length and the byte count agree. */
  lemma {:induction false} AsciiLengths(s: string)
    requires Ascii(s)
    ensures Utf16Length(s) == |Utf8(s)| == |s|
    decreases |s|
  {
    if s != [] {
      AsciiLengths(s[..|s| - 1]);
    }
  }

  /** A single non-ASCII character makes the byte count exceed the UTF-16 length. */
  lemma {:induction false} NonAsciiLonger(s: string, i: int)
    requires 0 <= i < |s| && s[i] as int >= 0x80
    ensures |Utf8(s)| > Utf16Length(s)
    decreases |s|
  {
    var n := |s| - 1;
    if i == n {
      Utf8NotShorter(s[..n]);
    } else {
      NonAsciiLonger(s[..n], i);
    }
  }

  lemma {:induction false} Utf8NotShorter(s: string)
    ensures |Utf8(s)| >= Utf16Length(s)
    decreases |s|
  {
    if s != [] {
      Utf8NotShorter(s[..|s| - 1]);
    }
  }

  // ---------------------------------------------------------------------
  // Routing
  // ---------------------------------------------------------------------

  /** The response `handle` sends: status, Content-Type header if any, declared length, body bytes. */
  datatype Reply = Reply(status: int, contentType: Option<string>, declaredLength: int, body: seq<bv8>)

  /** The URI after the rewrite of "/" to the visualiser page. */
  function RequestPath(uri: string): (r: string)
    ensures uri == "/" ==> r == INDEX_PAGE
    ensures uri != "/" ==> r == uri
  {
    if uri == "/" then INDEX_PAGE else uri
  }

  /** `getFileName()`: the text after the last '/'. */
  function FileName(path: string): (r: string)
    ensures '/' !in r
    ensures |r| <= |path| && r == path[|path| - |r|..]
  {
    var slash := LastIndexOf(path, '/');
    var r := path[slash + 1..];
    assert forall i :: 0 <= i < |r| ==> r[i] != '/' by {
      forall i | 0 <= i < |r| ensures r[i] != '/' {
        assert path[slash + 1 + i] != '/';
      }
    }
    r
  }

  /**
   * `sendResponseHeaders(code, response.length())` followed by writing
   * `response.getBytes()`, as written: the declared length counts UTF-16
   * units while the body is UTF-8 bytes.
   */
  function TextReplyAsWritten(status: int, text: string): (r: Reply)
    ensures r.declaredLength == Utf16Length(text) && r.body == Utf8(text)
  {
    Reply(status, None, Utf16Length(text), Utf8(text))
  }

  /** A text reply whose declared length is the number of bytes written. */
  function TextReply(status: int, text: string): (r: Reply)
    ensures r.declaredLength == |r.body| && r.body == Utf8(text) && r.status == status && r.contentType == None
  {
    Reply(status, None, |Utf8(text)|, Utf8(text))
  }

  /** The two agree whenever the text is ASCII, as the fixed 403 text always is. */
  lemma TextRepliesAgreeOnAscii(status: int, text: string)
    requires Ascii(text)
    ensures TextReplyAsWritten(status, text) == TextReply(status, text)
  {
    AsciiLengths(text);
  }

  /** A 404 for the decoded path "/é" declares one byte fewer than it writes. */
  lemma NotFoundLengthMismatch()
    ensures var r := TextReplyAsWritten(404, NOT_FOUND_PREFIX + "/é");
      r.declaredLength < |r.body|
  {
    var text := NOT_FOUND_PREFIX + "/é";
    NonAsciiLonger(text, |text| - 1);
  }

  /**
   * `handle`: rewrite "/", refuse any path holding "..", otherwise serve
   * the regular file at the normalised path with the type of its
   * extension, or answer 404. `files` maps each normalised path of an
   * existing regular file to its bytes; `normalize` stands for
   * `Paths.get(...).normalize()`.
   */
  method Handle(requestUri: string, files: map<string, seq<bv8>>, normalize: string -> string) returns (reply: Reply)
    ensures reply.status in {200, 403, 404}
    ensures reply.declaredLength == |reply.body|
    ensures var uri := RequestPath(requestUri);
      reply.status == 403 <==> Contains(uri, "..")
    ensures reply.status == 403 ==> reply == TextReply(403, FORBIDDEN_TEXT)
    ensures var uri := RequestPath(requestUri);
      reply.status == 200 <==> !Contains(uri, "..") && normalize("." + uri) in files
    ensures var path := normalize("." + RequestPath(requestUri));
      reply.status == 200 ==>
        reply.body == files[path] && reply.contentType == Some(MimeType(FileExtension(FileName(path))))
    ensures reply.status == 404 ==> reply == TextReply(404, NOT_FOUND_PREFIX + RequestPath(requestUri))
  {
    var uri := requestUri;
    if uri == "/" {
      uri := INDEX_PAGE;
    }

    if Contains(uri, "..") {
      return TextReply(403, FORBIDDEN_TEXT);
    }

    var filePath := normalize("." + uri);

    if filePath in files {
      var extension := FileExtension(FileName(filePath));
      var mimeType := MimeType(extension);
      var response := files[filePath];
      reply := Reply(200, Some(mimeType), |response|, response);
    } else {
      reply := TextReply(404, NOT_FOUND_PREFIX + uri);
    }
  }

  /** The rewrite target itself passes the ".." guard, so "/" is served or answered 404, never refused. */
  lemma IndexPageAllowed()
    ensures !Contains(RequestPath("/"), "..")
  {
    var p := INDEX_PAGE;
    forall j | At(p, "..", j) ensures false {
      assert p[j] == p[j..j + 2][0] == '.';
      assert p[j + 1] == p[j..j + 2][1] == '.';
      assert forall k :: 0 <= k < |p| && k != 11 ==> p[k] != '.';
    }
  }
}
