/** The media service: checking the header of a base64 data URL holding a
    company logo, and handing its payload to the file store. */
module MediaService {
  import opened Common

  /** The image subtypes a logo may have. */
  const ValidImageFileTypes: seq<string> := ["png", "jpeg", "gif", "webp"]

  const DataPrefix: string := "data:image/"
  const Base64Marker: string := ";base64,"

  /** The characters `\w` matches. */
  predicate WordChar(c: char) {
    'a' <= c <= 'z' || 'A' <= c <= 'Z' || '0' <= c <= '9' || c == '_'
  }

  predicate AllWordChars(s: string) {
    forall i :: 0 <= i < |s| ==> WordChar(s[i])
  }

  /** Length of the run of word characters `s` starts with: what `\w+`
      takes greedily. */
  function WordRun(s: string): (n: nat)
    ensures n <= |s|
    ensures AllWordChars(s[..n])
    ensures n < |s| ==> !WordChar(s[n])
  {
    if s == [] || !WordChar(s[0]) then 0
    else
      var k := WordRun(s[1..]);
      assert s[1..][..k] == s[1..k + 1];
      1 + k
  }

  /** A run of word characters stops exactly where the word does. */
  lemma {:induction false} WordRunOf(w: string, rest: string)
    requires AllWordChars(w)
    requires rest == [] || !WordChar(rest[0])
    ensures WordRun(w + rest) == |w|
  {
    if w == [] {
      assert w + rest == rest;
    } else {
      assert (w + rest)[1..] == w[1..] + rest;
      WordRunOf(w[1..], rest);
    }
  }

  /** `/^data:(image\/\w+);base64,/`: the subtype and what follows the
      header, when the string starts with one. */
  function MatchHeader(s: string): (r: Option<(string, string)>)
    ensures r.Some? ==>
      r.value.0 != [] && AllWordChars(r.value.0)
      && s == DataPrefix + r.value.0 + Base64Marker + r.value.1
  {
    var p := |DataPrefix|;
    if |s| < p || s[..p] != DataPrefix then None
    else
      var rest := s[p..];
      var n := WordRun(rest);
      if n == 0 || |rest| < n + |Base64Marker| || rest[n..n + |Base64Marker|] != Base64Marker then None
      else
        assert rest == rest[..n] + rest[n..n + |Base64Marker|] + rest[n + |Base64Marker|..];
        assert s == s[..p] + rest;
        Some((rest[..n], rest[n + |Base64Marker|..]))
  }

  /** Every header of that shape is recognised, and splits where it was
      joined. */
  lemma MatchHeaderComplete(subtype: string, payload: string)
    requires subtype != [] && AllWordChars(subtype)
    ensures MatchHeader(DataPrefix + subtype + Base64Marker + payload) == Some((subtype, payload))
  {
    var s := DataPrefix + subtype + Base64Marker + payload;
    var rest := subtype + Base64Marker + payload;
    assert s == DataPrefix + rest;
    assert s[..|DataPrefix|] == DataPrefix && s[|DataPrefix|..] == rest;
    assert rest == subtype + (Base64Marker + payload);
    WordRunOf(subtype, Base64Marker + payload);
    var n := |subtype|;
    assert rest[n..n + |Base64Marker|] == Base64Marker;
    assert rest[..n] == subtype && rest[n + |Base64Marker|..] == payload;
  }

  /** `addLogo`: a string without the header is rejected, then a subtype
      outside the list once lower-cased; otherwise the payload goes to
      `saveLogo` with the lower-cased subtype, and its path is the result.
      Decoding the payload is left to `saveLogo`. */
  function AddLogo(logo: string, saveLogo: (string, string) -> string): (r: Result<string>)
    ensures r == Err(Rejected("Invalid base64 string")) <==> MatchHeader(logo).None?
    ensures r == Err(Rejected("Invalid file type")) <==>
      MatchHeader(logo).Some? && Lower(MatchHeader(logo).value.0) !in ValidImageFileTypes
    ensures r.Ok? <==>
      MatchHeader(logo).Some? && Lower(MatchHeader(logo).value.0) in ValidImageFileTypes
    ensures r.Ok? ==>
      exists subtype, payload ::
        logo == DataPrefix + subtype + Base64Marker + payload
        && Lower(subtype) in ValidImageFileTypes
        && r.value == saveLogo(payload, Lower(subtype))
  {
    var header := MatchHeader(logo);
    if header.None? then Err(Rejected("Invalid base64 string"))
    else
      var fileType := Lower(header.value.0);
      if fileType !in ValidImageFileTypes then Err(Rejected("Invalid file type"))
      else Ok(saveLogo(header.value.1, fileType))
  }

  /** For any accepted subtype and payload, the logo is saved with exactly
      that payload, under the lower-cased subtype. */
  lemma AddLogoSavesPayload(subtype: string, payload: string, saveLogo: (string, string) -> string)
    requires subtype != [] && AllWordChars(subtype) && Lower(subtype) in ValidImageFileTypes
    ensures AddLogo(DataPrefix + subtype + Base64Marker + payload, saveLogo)
            == Ok(saveLogo(payload, Lower(subtype)))
  {
    MatchHeaderComplete(subtype, payload);
  }

  /** A word followed by neither a word character nor the marker is no
      header. */
  lemma HeaderWithoutMarker(w: string, tail: string)
    requires w != [] && AllWordChars(w)
    requires tail != [] && !WordChar(tail[0]) && tail[0] != Base64Marker[0]
    ensures MatchHeader(DataPrefix + w + tail).None?
  {
    var s := DataPrefix + w + tail;
    var rest := w + tail;
    assert s == DataPrefix + rest;
    assert s[..|DataPrefix|] == DataPrefix && s[|DataPrefix|..] == rest;
    WordRunOf(w, tail);
    var n := |w|;
    if |rest| >= n + |Base64Marker| {
      assert rest[n..n + |Base64Marker|][0] == tail[0];
    }
  }

  /** A well-formed header whose subtype is off the list is refused as a
      file type. */
  lemma OffListRejected(subtype: string, payload: string, saveLogo: (string, string) -> string)
    requires subtype != [] && AllWordChars(subtype) && Lower(subtype) !in ValidImageFileTypes
    ensures AddLogo(DataPrefix + subtype + Base64Marker + payload, saveLogo)
            == Err(Rejected("Invalid file type"))
  {
    MatchHeaderComplete(subtype, payload);
  }

  /** `image/svg+xml` has no header: `+` is not a word character. */
  lemma SvgRejected(saveLogo: (string, string) -> string)
    ensures AddLogo("data:image/svg+xml;base64,AAAA", saveLogo)
            == Err(Rejected("Invalid base64 string"))
  {
    assert "data:image/svg+xml;base64,AAAA" == DataPrefix + "svg" + "+xml;base64,AAAA";
    HeaderWithoutMarker("svg", "+xml;base64,AAAA");
  }

  /** The subtype is compared lower-cased: `PNG` is saved as png. */
  lemma UpperCasePngAccepted(saveLogo: (string, string) -> string)
    ensures AddLogo("data:image/PNG;base64,valid", saveLogo) == Ok(saveLogo("valid", "png"))
  {
    assert "data:image/PNG;base64,valid" == DataPrefix + "PNG" + Base64Marker + "valid";
    assert Lower("PNG") == "png";
    AddLogoSavesPayload("PNG", "valid", saveLogo);
  }

  /** `bmp` is not on the list. */
  lemma BmpRejected(saveLogo: (string, string) -> string)
    ensures AddLogo("data:image/bmp;base64,invalid", saveLogo) == Err(Rejected("Invalid file type"))
  {
    assert "data:image/bmp;base64,invalid" == DataPrefix + "bmp" + Base64Marker + "invalid";
    assert Lower("bmp") == "bmp";
    OffListRejected("bmp", "invalid", saveLogo);
  }

  /** Nor is `jpg`: only the `jpeg` spelling passes. */
  lemma JpgRejected(saveLogo: (string, string) -> string)
    ensures AddLogo("data:image/jpg;base64,x", saveLogo) == Err(Rejected("Invalid file type"))
  {
    assert "data:image/jpg;base64,x" == DataPrefix + "jpg" + Base64Marker + "x";
    assert Lower("jpg") == "jpg";
    OffListRejected("jpg", "x", saveLogo);
  }
}
