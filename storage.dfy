/** Object naming for uploaded report media, and the conversion of a base64 data URL into
    a file: the MIME type taken from the URL's header and the decoded characters copied
    into a byte array by a countdown loop. The upload and public-URL calls are left out. */
module Storage {
  import opened Http
  import opened Text

  /** `file.name.split(".").pop()`: the text after the last '.', the whole name when it
      has none. */
  function FileExtension(name: string): (ext: string)
    ensures '.' !in ext
    ensures '.' !in name ==> ext == name
    ensures '.' in name ==> |ext| < |name| && name[|name| - |ext| - 1..] == "." + ext
  {
    match LastIndexOf(name, '.')
    case None => name
    case Some(k) =>
      assert name[k..] == [name[k]] + name[k + 1..];
      name[k + 1..]
  }

  /** The object path of image number `index` of a report. */
  function ImagePath(reportId: string, index: nat, fileName: string): string
  {
    reportId + "/image_" + DecimalString(index) + "." + FileExtension(fileName)
  }

  /** The object path of a report's voice note, whatever the file is called. */
  function VoicePath(reportId: string): string
  {
    reportId + "/voice_note.wav"
  }

  /** The path starts with the report id and its folder separator, and the number and the
      extension can be read back from it: the digits run up to the first '.' after
      "/image_", and the extension is everything after it. */
  lemma {:induction false} ImagePathParts(reportId: string, index: nat, fileName: string)
    ensures var p := ImagePath(reportId, index, fileName);
            var tail := p[|reportId| + 7..];
            && p[..|reportId| + 7] == reportId + "/image_"
            && IndexOf(tail, '.').Some?
            && var dot := IndexOf(tail, '.').value;
               && DecimalValue(tail[..dot]) == index
               && tail[dot + 1..] == FileExtension(fileName)
  {
    var p := ImagePath(reportId, index, fileName);
    var digits := DecimalString(index);
    var ext := FileExtension(fileName);
    assert p == (reportId + "/image_") + (digits + "." + ext);
    var tail := p[|reportId| + 7..];
    assert tail == digits + "." + ext;
    assert tail[|digits|] == '.';
    assert '.' !in tail[..|digits|] by {
      assert tail[..|digits|] == digits;
    }
    IndexOfFirst(tail, '.', |digits|);
    assert tail[..|digits|] == digits;
    DecimalRoundTrip(index);
    assert tail[|digits| + 1..] == ext;
  }

  /** Two images of one report never share a path. */
  lemma ImagePathsDistinct(reportId: string, i: nat, j: nat, fileI: string, fileJ: string)
    requires i != j
    ensures ImagePath(reportId, i, fileI) != ImagePath(reportId, j, fileJ)
  {
    ImagePathParts(reportId, i, fileI);
    ImagePathParts(reportId, j, fileJ);
  }

  /** Within a report's folder the voice note's path is never an image's path. The two
      are stored in different buckets (`voice-notes` and `report-images`), so this is a
      property of the naming scheme, not a guard against a collision that could happen. */
  lemma VoicePathIsNoImagePath(reportId: string, index: nat, fileName: string)
    ensures VoicePath(reportId) != ImagePath(reportId, index, fileName)
  {
    assert VoicePath(reportId)[|reportId| + 1] == 'v';
    assert ImagePath(reportId, index, fileName)[|reportId| + 1] == 'i';
  }

  /** The characters JavaScript's `.` does not match. */
  predicate LineTerminator(c: char)
  {
    c == '\n' || c == '\r' || c == '\U{2028}' || c == '\U{2029}'
  }

  /** `base64.split(",")[0]`: the text before the first comma. */
  function Header(dataUrl: string): (h: string)
    ensures ',' !in h
    ensures h <= dataUrl
    ensures ',' !in dataUrl ==> h == dataUrl
    ensures ',' in dataUrl ==> dataUrl[|h|] == ','
  {
    match IndexOf(dataUrl, ',')
    case None => dataUrl
    case Some(k) => dataUrl[..k]
  }

  /** `base64.split(",")[1]`: the text between the first and the second comma, absent when
      there is no comma. */
  function Payload(dataUrl: string): (p: Option<string>)
    ensures p.None? <==> ',' !in dataUrl
    ensures p.Some? ==> ',' !in p.value && p.value <= dataUrl[|Header(dataUrl)| + 1..]
    ensures p.Some? ==> var k := |Header(dataUrl)| + 1 + |p.value|;
                        k == |dataUrl| || dataUrl[k] == ','
  {
    match IndexOf(dataUrl, ',')
    case None => None
    case Some(k) =>
      var rest := dataUrl[k + 1..];
      match IndexOf(rest, ',')
      case None => Some(rest)
      case Some(m) => Some(rest[..m])
  }

  /** The first index of ';' or of a line terminator. */
  function StopIndex(s: string): (r: Option<nat>)
    ensures r.Some? ==> r.value < |s| && (s[r.value] == ';' || LineTerminator(s[r.value]))
    ensures r.Some? ==> forall i :: 0 <= i < r.value ==> s[i] != ';' && !LineTerminator(s[i])
    ensures r.None? ==> forall i :: 0 <= i < |s| ==> s[i] != ';' && !LineTerminator(s[i])
  {
    if s == [] then None
    else if s[0] == ';' || LineTerminator(s[0]) then Some(0)
    else
      match StopIndex(s[1..])
      case None => None
      case Some(k) => Some(k + 1)
  }

  /** A ';' with neither ';' nor a line terminator before it is where the scan stops. */
  lemma {:induction false} StopIndexAt(s: string, k: nat)
    requires k < |s| && s[k] == ';'
    requires forall i :: 0 <= i < k ==> s[i] != ';' && !LineTerminator(s[i])
    ensures StopIndex(s) == Some(k)
  {
    if k > 0 {
      StopIndexAt(s[1..], k - 1);
    }
  }

  /** The capture group of `/:(.*?);/` on `h`: the leftmost ':' from which ';' is reached
      without crossing a line terminator, and the shortest text up to that ';'. */
  function MimeCapture(h: string): (m: Option<string>)
    ensures m.Some? ==> ';' !in m.value && forall c :: c in m.value ==> !LineTerminator(c)
    decreases |h|
  {
    match IndexOf(h, ':')
    case None => None
    case Some(i) =>
      var rest := h[i + 1..];
      match StopIndex(rest)
      case Some(j) =>
        if rest[j] == ';' then Some(rest[..j]) else MimeCapture(rest)
      case None => None
  }

  const DefaultMime := "image/jpeg"

  /** The file's type: the captured text, or "image/jpeg" when nothing (or nothing but the
      empty string) is captured. */
  function MimeType(dataUrl: string): (r: string)
    ensures r != "" && ';' !in r
    ensures r != DefaultMime ==> MimeCapture(Header(dataUrl)) == Some(r)
  {
    var m := MimeCapture(Header(dataUrl));
    if m.Some? && m.value != "" then m.value else DefaultMime
  }

  /** On a header without line terminators, the MIME type is the text between the first
      ':' and the first ';' after it, or the default when that text is empty. */
  lemma MimeBetweenColonAndSemicolon(dataUrl: string, i: nat, j: nat)
    requires var h := Header(dataUrl);
             && (forall c :: c in h ==> !LineTerminator(c))
             && i < j < |h| && h[i] == ':' && ':' !in h[..i]
             && h[j] == ';' && ';' !in h[i + 1..j]
    ensures MimeType(dataUrl) == if i + 1 < j then dataUrl[i + 1..j] else DefaultMime
  {
    var h := Header(dataUrl);
    IndexOfFirst(h, ':', i);
    var rest := h[i + 1..];
    forall k | 0 <= k < j - i - 1
      ensures rest[k] != ';' && !LineTerminator(rest[k])
    {
      assert rest[k] == h[i + 1..j][k];
      assert rest[k] in h;
    }
    StopIndexAt(rest, j - i - 1);
    assert rest[..j - i - 1] == h[i + 1..j] == dataUrl[i + 1..j];
  }

  /** Without a ':' in the header, or with no ';' after its first ':', the type is the
      default. */
  lemma MimeDefaults(dataUrl: string)
    requires var h := Header(dataUrl);
             ':' !in h || ';' !in h[IndexOf(h, ':').value + 1..]
    ensures MimeType(dataUrl) == DefaultMime
  {
    NoCaptureAfterColon(Header(dataUrl));
  }

  lemma NoCaptureAfterColon(h: string)
    requires ':' !in h || ';' !in h[IndexOf(h, ':').value + 1..]
    ensures MimeCapture(h) == None
  {
    var first := IndexOf(h, ':');
    if first.Some? {
      var rest := h[first.value + 1..];
      NoSemicolonNoCapture(rest);
      var stop := StopIndex(rest);
      if stop.Some? {
        assert rest[stop.value] in rest;
      }
    }
  }

  /** A text without ';' has no capture. */
  lemma {:induction false} NoSemicolonNoCapture(h: string)
    requires ';' !in h
    ensures MimeCapture(h) == None
    decreases |h|
  {
    var first := IndexOf(h, ':');
    if first.Some? {
      var rest := h[first.value + 1..];
      forall k | 0 <= k < |rest| ensures rest[k] != ';' {
        assert rest[k] == h[first.value + 1 + k];
        assert h[first.value + 1 + k] in h;
      }
      var stop := StopIndex(rest);
      if stop.Some? {
        assert rest[stop.value] != ';';
        NoSemicolonNoCapture(rest);
      }
    }
  }

  newtype Byte = x: int | 0 <= x < 256

  /** Storing a character code into a `Uint8Array` keeps its low eight bits. */
  function CodeUnitByte(c: char): Byte
  {
    ((c as int) % 256) as Byte
  }

  /** The bytes of a decoded string, one per character. */
  function Latin1Bytes(s: string): (b: seq<Byte>)
    ensures |b| == |s|
    ensures forall i :: 0 <= i < |s| ==> b[i] == CodeUnitByte(s[i])
  {
    seq(|s|, i requires 0 <= i < |s| => CodeUnitByte(s[i]))
  }

  /** The `while (n--)` loop: it fills the new array from the last index down to 0. */
  method CopyCodeUnits(decoded: string) returns (u8arr: array<Byte>)
    ensures u8arr.Length == |decoded|
    ensures u8arr[..] == Latin1Bytes(decoded)
  {
    var n := |decoded|;
    u8arr := new Byte[n];
    while n > 0
      invariant 0 <= n <= |decoded| == u8arr.Length
      invariant forall k :: n <= k < |decoded| ==> u8arr[k] == CodeUnitByte(decoded[k])
    {
      n := n - 1;
      u8arr[n] := CodeUnitByte(decoded[n]);
    }
  }

  /** The characters a `File`'s type may hold: U+0020 to U+007E. */
  predicate PrintableAscii(c: char)
  {
    ' ' <= c <= '~'
  }

  /** The type a `File` records for its `type` option: the option lower-cased, or the empty
      string when the option holds a character outside U+0020 to U+007E. */
  function FileType(t: string): (r: string)
    ensures forall c :: c in r ==> PrintableAscii(c) && !('A' <= c <= 'Z')
    ensures r == "" <==> t == "" || exists i :: 0 <= i < |t| && !PrintableAscii(t[i])
    ensures r != "" ==> |r| == |t| && forall i :: 0 <= i < |t| ==> r[i] == LowerChar(t[i])
  {
    if forall i :: 0 <= i < |t| ==> PrintableAscii(t[i]) then Lower(t) else ""
  }

  /** The header of `data:<type>;base64,<payload>` and where its ':' and ';' lie. */
  lemma DataUrlHeader(t: string, payload: string)
    requires forall i :: 0 <= i < |t| ==> t[i] != ':' && t[i] != ';' && t[i] != ',' && !LineTerminator(t[i])
    ensures var h := "data:" + t + ";base64";
            && Header("data:" + t + ";base64," + payload) == h
            && (forall c :: c in h ==> !LineTerminator(c))
            && h[4] == ':' && ':' !in h[..4]
            && h[5 + |t|] == ';' && ';' !in h[5..5 + |t|]
            && h[5..5 + |t|] == t
  {
    var h := "data:" + t + ";base64";
    var url := h + "," + payload;
    assert url == "data:" + t + ";base64," + payload;
    assert forall k :: 0 <= k < 5 ==> h[k] == "data:"[k];
    assert forall k :: 5 <= k < 5 + |t| ==> h[k] == t[k - 5];
    assert forall k :: 5 + |t| <= k < |h| ==> h[k] == ";base64"[k - 5 - |t|];
    assert forall k :: 0 <= k < |h| ==> h[k] != ',' && !LineTerminator(h[k]);
    assert url[..|h|] == h;
    IndexOfFirst(url, ',', |h|);
    assert h[..4] == "data";
    assert h[5..5 + |t|] == t;
  }

  /** A URL of the usual shape `data:<type>;base64,<payload>` gives its file the type,
      lower-cased when it is printable ASCII and blanked otherwise. */
  lemma TypedDataUrl(t: string, payload: string)
    requires t != ""
    requires forall i :: 0 <= i < |t| ==> t[i] != ':' && t[i] != ';' && t[i] != ',' && !LineTerminator(t[i])
    ensures MimeType("data:" + t + ";base64," + payload) == t
    ensures FileType(MimeType("data:" + t + ";base64," + payload))
            == if forall i :: 0 <= i < |t| ==> PrintableAscii(t[i]) then Lower(t) else ""
  {
    var url := "data:" + t + ";base64," + payload;
    DataUrlHeader(t, payload);
    MimeBetweenColonAndSemicolon(url, 4, 5 + |t|);
    assert url[5..5 + |t|] == Header(url)[5..5 + |t|];
  }

  /** The type "Image/PNG" is recorded as "image/png". */
  lemma UpperCaseTypeLowered()
    ensures FileType("Image/PNG") == "image/png"
  {
    var lowered := Lower("Image/PNG");
    forall i | 0 <= i < 9 ensures lowered[i] == "image/png"[i] {
      assert lowered[i] == LowerChar("Image/PNG"[i]);
    }
    assert lowered == "image/png";
  }

  datatype FileBlob = FileBlob(bytes: seq<Byte>, name: string, mimeType: string)

  /** `convertBase64ToFile`. `atob` stands for base64 decoding, `None` where it throws; with
      no comma in the URL it is handed `undefined`, whose text "undefined" is no valid
      base64, so the conversion throws (`None`). */
  method ConvertBase64ToFile(dataUrl: string, fileName: string, atob: string -> Option<string>)
    returns (f: Option<FileBlob>)
    ensures ',' !in dataUrl ==> f == None
    ensures ',' in dataUrl ==>
              f == (match atob(Payload(dataUrl).value)
                    case None => None
                    case Some(decoded) => Some(FileBlob(Latin1Bytes(decoded), fileName, FileType(MimeType(dataUrl)))))
    ensures f.Some? ==> && f.value.name == fileName
                        && |f.value.bytes| == |atob(Payload(dataUrl).value).value|
                        && (f.value.mimeType == "" || |f.value.mimeType| == |MimeType(dataUrl)|)
                        && forall c :: c in f.value.mimeType ==> PrintableAscii(c) && !('A' <= c <= 'Z')
  {
    var mime := MimeType(dataUrl);
    var payload := Payload(dataUrl);
    if payload.None? {
      return None;
    }
    var bstr := atob(payload.value);
    if bstr.None? {
      return None;
    }
    var u8arr := CopyCodeUnits(bstr.value);
    f := Some(FileBlob(u8arr[..], fileName, FileType(mime)));
  }
}
