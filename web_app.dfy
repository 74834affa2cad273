/** The web front end's upload validation and interface-language switch:
    which file names are accepted, the size limit, the fixed order of the
    checks before an upload is stored under a unique name, and the
    language chosen on the command line or through the language endpoint. */
module WebUpload {
  import opened Util
  import opened Text

  /** Extensions accepted for audio uploads. */
  const AudioExtensions: set<string> := {"wav", "mp3", "flac", "ogg", "m4a", "aiff", "ac3"}

  /** Extensions accepted for model uploads. */
  const ModelExtensions: set<string> := {"zip", "pth", "index"}

  /** `filename.rsplit(".", 1)[1]`: the text after the last ".". */
  function Extension(filename: string): (ext: string)
    requires '.' in filename
    ensures '.' !in ext && |ext| < |filename|
    ensures filename[|filename| - |ext| - 1] == '.' && filename[|filename| - |ext|..] == ext
  {
    filename[LastIndex(filename, '.') + 1..]
  }

  /** `allowed_file`: the name has a "." and the lower-cased text after the
      last one is an allowed extension. */
  function AllowedFile(filename: string, allowed: set<string>): (ok: bool)
    ensures ok ==> '.' in filename
  {
    '.' in filename && LowerAscii(Extension(filename)) in allowed
  }

  /** Only the text after the last "." decides: whatever the stem holds
      (dots included), the name is allowed exactly when the lower-cased
      extension is. */
  lemma AllowedFileByExtension(stem: string, ext: string, allowed: set<string>)
    requires '.' !in ext
    ensures AllowedFile(stem + "." + ext, allowed) <==> LowerAscii(ext) in allowed
  {
    var name := stem + "." + ext;
    LastIndexAt(name, '.', |stem|);
    assert name[|stem| + 1..] == ext;
  }

  /** The check ignores the case of ASCII letters: a name and its lower-cased
      form are accepted alike. */
  lemma AllowedFileIgnoresCase(filename: string, allowed: set<string>)
    ensures AllowedFile(LowerAscii(filename), allowed) == AllowedFile(filename, allowed)
  {
    var lower := LowerAscii(filename);
    var k := LastIndex(filename, '.');
    LowerAsciiDots(filename, k + 1);
    LastIndexFound(filename, '.');
    LastIndexFound(lower, '.');
    if k >= 0 {
      assert Extension(lower) == LowerAscii(Extension(filename));
      LowerAsciiIdempotent(Extension(filename));
    }
  }

  /** The reasons an upload is refused; the source answers each with its
      own message. */
  datatype UploadError =
    | NotSelected
    | UnsupportedFormat(allowed: set<string>)
    | TooLarge(maxSizeMb: int)
    | EmptyFile
    | BadName
    | SaveFailed

  /** One mebibyte. */
  const MiB: int := 1024 * 1024

  /** The limit `validate_file_size` uses when none is given. */
  const DefaultMaxSizeMb: int := 500

  /** `validate_file_size` on a file of `size` bytes: too large when over
      the limit (checked first), empty when 0 bytes, accepted otherwise. */
  function SizeVerdict(size: nat, maxSizeMb: int): (v: Option<UploadError>)
    ensures v == None <==> 0 < size <= maxSizeMb * MiB
    ensures v == Some(TooLarge(maxSizeMb)) <==> size > maxSizeMb * MiB
    ensures v == Some(EmptyFile) <==> size == 0 && maxSizeMb >= 0
  {
    if size > maxSizeMb * MiB then Some(TooLarge(maxSizeMb))
    else if size == 0 then Some(EmptyFile)
    else None
  }

  /** With the default limit a file passes exactly when it holds between 1
      and 524288000 bytes; the limit itself passes. */
  lemma DefaultSizeLimit(size: nat)
    ensures SizeVerdict(size, DefaultMaxSizeMb) == None <==> 1 <= size <= 524288000
    ensures SizeVerdict(size, DefaultMaxSizeMb) == Some(EmptyFile) <==> size == 0
    ensures SizeVerdict(size, DefaultMaxSizeMb) == Some(TooLarge(500)) <==> size > 524288000
  {
    assert DefaultMaxSizeMb * MiB == 524288000;
  }

  /** An uploaded file: its client-side name, its length in bytes and the
      read position of its stream. */
  class Upload {
    const filename: string
    const size: nat
    var position: nat

    constructor(filename: string, size: nat)
      ensures this.filename == filename && this.size == size && position == 0
    {
      this.filename := filename;
      this.size := size;
      position := 0;
    }

    /** `file.save(path)`: the stream is copied to the destination from
        the current position to its end. */
    method Save()
      modifies this
      ensures position == size
    {
      position := size;
    }

    /** `validate_file_size`: seeks to the end to learn the size, seeks back
        to the start, then judges the size. */
    method ValidateFileSize(maxSizeMb: int) returns (verdict: Option<UploadError>)
      modifies this
      ensures position == 0
      ensures verdict == SizeVerdict(size, maxSizeMb)
    {
      var maxSizeBytes := maxSizeMb * 1024 * 1024;
      position := size;
      var fileSize := position;
      position := 0;
      if fileSize > maxSizeBytes {
        return Some(TooLarge(maxSizeMb));
      }
      if fileSize == 0 {
        return Some(EmptyFile);
      }
      return None;
    }
  }

  /** A lower-case hexadecimal digit. */
  predicate IsHexDigit(c: char)
  {
    c in "0123456789abcdef"
  }

  /** The lower-case hexadecimal digit of d. */
  function HexDigit(d: bv8): (c: char)
    requires d < 16
    ensures IsHexDigit(c)
  {
    if d < 10 then ('0' as int + d as int) as char else ('a' as int + d as int - 10) as char
  }

  /** `bytes.hex()`: two lower-case hexadecimal digits per byte, the high
      nibble first. */
  function Hex(bytes: seq<bv8>): (h: string)
    ensures |h| == 2 * |bytes|
    ensures forall i :: 0 <= i < |h| ==> IsHexDigit(h[i])
    ensures forall i :: 0 <= i < |bytes| ==> h[2 * i] == ByteHex(bytes[i])[0] && h[2 * i + 1] == ByteHex(bytes[i])[1]
  {
    if bytes == [] then []
    else
      var n := |bytes| - 1;
      AppendByteHex(bytes[..n], Hex(bytes[..n]), bytes[n]);
      assert bytes[..n] + [bytes[n]] == bytes;
      Hex(bytes[..n]) + ByteHex(bytes[n])
  }

  /** Appending the digits of one more byte to the digits of a prefix keeps
      every digit at the place of its byte. */
  lemma AppendByteHex(prefix: seq<bv8>, digits: string, b: bv8)
    requires |digits| == 2 * |prefix|
    requires forall i :: 0 <= i < |digits| ==> IsHexDigit(digits[i])
    requires forall i :: 0 <= i < |prefix| ==> digits[2 * i] == ByteHex(prefix[i])[0] && digits[2 * i + 1] == ByteHex(prefix[i])[1]
    ensures var h, bytes := digits + ByteHex(b), prefix + [b];
            && (forall i :: 0 <= i < |h| ==> IsHexDigit(h[i]))
            && (forall i :: 0 <= i < |bytes| ==> h[2 * i] == ByteHex(bytes[i])[0] && h[2 * i + 1] == ByteHex(bytes[i])[1])
  {
    var h, bytes := digits + ByteHex(b), prefix + [b];
    forall i | 0 <= i < |bytes|
      ensures h[2 * i] == ByteHex(bytes[i])[0] && h[2 * i + 1] == ByteHex(bytes[i])[1]
    {
      if i < |prefix| {
        assert bytes[i] == prefix[i];
      }
    }
  }

  /** The two digits of one byte, the high nibble first. */
  function ByteHex(b: bv8): (h: string)
    ensures |h| == 2 && IsHexDigit(h[0]) && IsHexDigit(h[1])
  {
    [HexDigit(b >> 4), HexDigit(b & 15)]
  }

  /** `base + "_" + token + ext`, where (base, ext) is the name split at its
      extension. */
  function UniqueName(name: string, token: string): string
  {
    SplitExt(name).0 + "_" + token + SplitExt(name).1
  }

  /** The unique name splits back into the stem with the token appended
      and the original extension, provided neither the name nor the token
      holds a "/" and the token holds no ".". */
  lemma UniqueNameSplit(name: string, token: string)
    requires '/' !in name
    requires '.' !in token && '/' !in token
    ensures SplitExt(UniqueName(name, token)) == (SplitExt(name).0 + "_" + token, SplitExt(name).1)
  {
    var base, ext := SplitExt(name).0, SplitExt(name).1;
    var mid := base + "_" + token;
    var u := mid + ext;
    assert u == UniqueName(name, token);
    assert '/' !in u by {
      assert base + ext == name;
      forall i | 0 <= i < |u|
        ensures u[i] != '/'
      {
        if i < |base| {
          assert u[i] == name[i];
        } else if i >= |mid| {
          assert u[i] == name[i - |mid| + |base|];
        }
      }
    }
    LastIndexAt(u, '/', -1);
    LastIndexAt(name, '/', -1);
    if ext == [] {
      var d := LastIndex(name, '.');
      assert base == name;
      assert forall j :: 0 <= j < |name| ==> u[j] == name[j];
      LastIndexAt(u, '.', d);
      if d > -1 {
        assert !NotAllDots(name, 0, d);
        assert !NotAllDots(u, 0, d);
      }
      assert u == mid;
    } else {
      LastIndexAt(u, '.', |mid|);
      assert u[|base|] != '.';
      assert u[..|mid|] == mid && u[|mid|..] == ext;
    }
  }

  /** `os.path.basename`: the text after the last "/". */
  function Basename(p: string): (name: string)
    ensures '/' !in name && |name| <= |p| && p[|p| - |name|..] == name
  {
    p[LastIndex(p, '/') + 1..]
  }

  /** Joining a name without "/" onto a folder, the base name of the path
      is that name again. */
  lemma BasenamePathJoin(folder: string, name: string)
    requires '/' !in name
    ensures Basename(PathJoin(folder, name)) == name
  {
    var p := PathJoin(folder, name);
    PathJoinParts(folder, name);
    if name != [] {
      assert name[0] != '/';
    }
    var k := |p| - |name| - 1;
    if k >= 0 {
      assert p[k] == '/';
    } else {
      assert folder == [];
    }
    assert forall j :: k < j < |p| ==> p[j] == name[j - k - 1];
    LastIndexAt(p, '/', k);
  }

  /** `save_uploaded_file` as a function of what it sees: the file's name
      (None when no file was sent), its size, the folder, the allowed
      extensions, the sanitiser (`secure_filename`), the 8 random bytes of
      the token, and whether writing the file succeeds. The checks run in a
      fixed order and the first failure is the answer. */
  function SaveOutcome(filename: Option<string>, size: nat, uploadFolder: string, allowed: set<string>,
                       secure: string -> string, noise: seq<bv8>, saved: bool): (r: Result<string, UploadError>)
  {
    if filename == None || filename.value == "" then Err(NotSelected)
    else if !AllowedFile(filename.value, allowed) then Err(UnsupportedFormat(allowed))
    else if SizeVerdict(size, DefaultMaxSizeMb) != None then Err(SizeVerdict(size, DefaultMaxSizeMb).value)
    else if secure(filename.value) == "" then Err(BadName)
    else if !saved then Err(SaveFailed)
    else Ok(PathJoin(uploadFolder, UniqueName(secure(filename.value), Hex(noise))))
  }

  /** Each refusal happens exactly when every earlier check passed and its
      own check fails; a path comes back only when all checks pass. */
  lemma SaveChecksInOrder(filename: Option<string>, size: nat, uploadFolder: string, allowed: set<string>,
                          secure: string -> string, noise: seq<bv8>, saved: bool)
    ensures var r := SaveOutcome(filename, size, uploadFolder, allowed, secure, noise, saved);
            var named := filename != None && filename.value != "";
            var typed := named && AllowedFile(filename.value, allowed);
            var sized := typed && 0 < size <= 524288000;
            var sane := sized && secure(filename.value) != "";
            && (r == Err(NotSelected) <==> !named)
            && (r == Err(UnsupportedFormat(allowed)) <==> named && !typed)
            && (r == Err(TooLarge(500)) <==> typed && size > 524288000)
            && (r == Err(EmptyFile) <==> typed && size == 0)
            && (r == Err(BadName) <==> sized && !sane)
            && (r == Err(SaveFailed) <==> sane && !saved)
            && (r.Ok? <==> sane && saved)
  {
    DefaultSizeLimit(size);
  }

  /** A stored upload keeps its extension: the file name inside the returned
      path is the sanitised name's stem, "_", the hexadecimal token, then
      the sanitised name's extension, provided the sanitiser's output has
      no "/". */
  lemma SavedNameKeepsExtension(filename: Option<string>, size: nat, uploadFolder: string, allowed: set<string>,
                                secure: string -> string, noise: seq<bv8>, saved: bool)
    requires filename != None ==> '/' !in secure(filename.value)
    ensures var r := SaveOutcome(filename, size, uploadFolder, allowed, secure, noise, saved);
            r.Ok? ==>
              var name := secure(filename.value);
              SplitExt(Basename(r.value)) == (SplitExt(name).0 + "_" + Hex(noise), SplitExt(name).1)
  {
    var r := SaveOutcome(filename, size, uploadFolder, allowed, secure, noise, saved);
    if r.Ok? {
      var name := secure(filename.value);
      var token := Hex(noise);
      var unique := UniqueName(name, token);
      HexAvoids(noise);
      UniqueNameSplit(name, token);
      UniqueNameAvoidsSlash(name, token);
      assert r.value == PathJoin(uploadFolder, unique);
      BasenamePathJoin(uploadFolder, unique);
    }
  }

  /** A hexadecimal token has neither a "." nor a "/". */
  lemma HexAvoids(bytes: seq<bv8>)
    ensures '.' !in Hex(bytes) && '/' !in Hex(bytes)
  {
    var h := Hex(bytes);
    forall i | 0 <= i < |h|
      ensures h[i] != '.' && h[i] != '/'
    {
      assert IsHexDigit(h[i]);
    }
  }

  /** A name and a token without "/" give a unique name without "/". */
  lemma UniqueNameAvoidsSlash(name: string, token: string)
    requires '/' !in name && '/' !in token
    ensures '/' !in UniqueName(name, token)
  {
    var parts := SplitExt(name);
    assert parts.0 + parts.1 == name;
    assert '/' !in parts.0 && '/' !in parts.1;
  }

  /** `save_uploaded_file`: refuses a missing file, a disallowed extension,
      a bad size (rewinding the stream) or an empty sanitised name, in that
      order, and otherwise stores the file under a unique name in the
      folder. `saved` says whether the destination could be opened; a
      refusal there happens before the stream is read, and a stored file
      leaves the stream at its end. */
  method SaveUploadedFile(file: Upload?, uploadFolder: string, allowed: set<string>,
                          secure: string -> string, noise: seq<bv8>, saved: bool)
    returns (r: Result<string, UploadError>)
    modifies file
    ensures file == null ==> r == Err(NotSelected)
    ensures file != null ==>
              r == SaveOutcome(Some(file.filename), file.size, uploadFolder, allowed, secure, noise, saved)
    ensures file != null ==>
              file.position == if r.Ok? then file.size
                               else if file.filename != "" && AllowedFile(file.filename, allowed) then 0
                               else old(file.position)
  {
    if file == null || file.filename == "" {
      return Err(NotSelected);
    }
    if !AllowedFile(file.filename, allowed) {
      return Err(UnsupportedFormat(allowed));
    }
    var sizeError := file.ValidateFileSize(DefaultMaxSizeMb);
    if sizeError != None {
      return Err(sizeError.value);
    }
    var name := secure(file.filename);
    if name == "" {
      return Err(BadName);
    }
    var unique := UniqueName(name, Hex(noise));
    var path := PathJoin(uploadFolder, unique);
    if !saved {
      return Err(SaveFailed);
    }
    file.Save();
    return Ok(path);
  }

  /** The languages the interface has translations for (the keys of
      `I18N`). */
  const I18NLanguages: set<string> := {"ru", "en"}

  /** The language chosen by the command line: the item after the first
      "--lang" when there is one and it is "ru" or "en", otherwise "ru". */
  function LanguageFromArgv(argv: seq<string>): (lang: string)
    ensures lang in I18NLanguages
  {
    if "--lang" !in argv then "ru"
    else
      var i := FirstIndex(argv, "--lang");
      if i + 1 < |argv| && argv[i + 1] in ["ru", "en"] then argv[i + 1] else "ru"
  }

  /** The first "--lang" decides: its successor is taken when it names a
      known language, and "ru" stays otherwise, whatever follows. */
  lemma LanguageFromFirstFlag(pre: seq<string>, lang: string, post: seq<string>)
    requires "--lang" !in pre
    ensures LanguageFromArgv(pre + ["--lang", lang] + post) == if lang in ["ru", "en"] then lang else "ru"
  {
    var argv := pre + ["--lang", lang] + post;
    FirstIndexAfter(pre, "--lang", [lang] + post);
    assert argv == pre + ["--lang"] + ([lang] + post);
    assert argv[|pre| + 1] == lang;
  }

  /** The first x in `pre + [x] + post` is right after pre when pre has none. */
  lemma {:induction false} FirstIndexAfter<T>(pre: seq<T>, x: T, post: seq<T>)
    requires x !in pre
    ensures FirstIndex(pre + [x] + post, x) == |pre|
  {
    if pre != [] {
      assert (pre + [x] + post)[1..] == pre[1..] + [x] + post;
      FirstIndexAfter(pre[1..], x, post);
    }
  }

  /** A trailing "--lang" with nothing after it leaves the default. */
  lemma LanguageFromTrailingFlag(pre: seq<string>)
    requires "--lang" !in pre
    ensures LanguageFromArgv(pre + ["--lang"]) == "ru"
  {
    FirstIndexAfter(pre, "--lang", []);
    assert pre + ["--lang"] + [] == pre + ["--lang"];
  }

  /** The answer of the language endpoint. */
  datatype LanguageReply = Switched(language: string) | UnsupportedLanguage

  /** The HTTP status of a reply. */
  function Status(reply: LanguageReply): (code: nat)
    ensures code == 200 || code == 400
  {
    if reply.Switched? then 200 else 400
  }

  /** The interface's global state: the current language. */
  class Interface {
    var currentLanguage: string

    /** Every translation lookup (`I18N[CURRENT_LANGUAGE]`) succeeds. */
    ghost predicate Valid()
      reads this
    {
      currentLanguage in I18NLanguages
    }

    /** Start-up: "ru" unless the command line picks a known language. */
    constructor(argv: seq<string>)
      ensures currentLanguage == LanguageFromArgv(argv)
      ensures Valid()
    {
      currentLanguage := "ru";
      if "--lang" in argv {
        var langIndex := FirstIndex(argv, "--lang");
        if langIndex + 1 < |argv| {
          var lang := argv[langIndex + 1];
          if lang in ["ru", "en"] {
            currentLanguage := lang;
          }
        }
      }
    }

    /** `set_language`: the requested language (default "ru" when the body
        names none) is taken when it has translations; anything else is
        refused with 400 and the language stays. */
    method SetLanguage(requested: Option<string>) returns (reply: LanguageReply)
      requires Valid()
      modifies this
      ensures Valid()
      ensures var lang := if requested == None then "ru" else requested.value;
              if lang in I18NLanguages
              then reply == Switched(lang) && currentLanguage == lang
              else reply == UnsupportedLanguage && currentLanguage == old(currentLanguage)
    {
      var lang := if requested == None then "ru" else requested.value;
      if lang in I18NLanguages {
        currentLanguage := lang;
        return Switched(lang);
      } else {
        return UnsupportedLanguage;
      }
    }
  }
}
