/**
 * The component's session: the form record, the last QR image and the
 * preview text, and the handlers that move between them. The remote QR
 * service, image loading and the canvas are opaque: an image load is an
 * event that either carries the PNG bytes (already base64-encoded) or
 * reports failure, and `encodeURIComponent` is a parameter.
 */
module Session {
  import opened Text
  import opened VCard
  import CardProperties

  // ---------------------------------------------------------------
  // Download filename
  // ---------------------------------------------------------------

  const FilenameTail := "_contact_qr.png"

  /**
   * `${first}_${last}_contact_qr.png` with every maximal run of whitespace
   * replaced by one underscore.
   */
  function DownloadFilename(first: string, last: string): string {
    CollapseWhitespace(first + "_" + last + FilenameTail)
  }

  lemma TailHasNoWhitespace()
    ensures NoWhitespace(FilenameTail) && NoWhitespace("_")
    ensures !IsWhitespace(FilenameTail[0]) && !IsWhitespace('_')
  {
  }

  /** The filename holds no whitespace and ends with `_contact_qr.png`. */
  lemma FilenameShape(first: string, last: string)
    ensures NoWhitespace(DownloadFilename(first, last))
    ensures HasSuffix(DownloadFilename(first, last), FilenameTail)
  {
    var a := first + "_" + last;
    CollapseRemovesWhitespace(a + FilenameTail);
    TailHasNoWhitespace();
    CollapseAppend(a, FilenameTail);
    CollapseNoWhitespace(FilenameTail);
    SuffixOfAppend(CollapseWhitespace(a), FilenameTail);
  }

  /** Names without whitespace are used as they are. */
  lemma FilenamePlain(first: string, last: string)
    requires NoWhitespace(first) && NoWhitespace(last)
    ensures DownloadFilename(first, last) == first + "_" + last + FilenameTail
  {
    var s := first + "_" + last + FilenameTail;
    TailHasNoWhitespace();
    forall i | 0 <= i < |s|
      ensures !IsWhitespace(s[i])
    {
      if i < |first| {
        assert s[i] == first[i];
      } else if i == |first| {
        assert s[i] == '_';
      } else if i < |first| + 1 + |last| {
        assert s[i] == last[i - |first| - 1];
      } else {
        assert s[i] == FilenameTail[i - |first| - 1 - |last|];
      }
    }
    CollapseNoWhitespace(s);
  }

  /** Rewriting the filename's whitespace runs again changes nothing. */
  lemma FilenameStable(first: string, last: string)
    ensures CollapseWhitespace(DownloadFilename(first, last)) == DownloadFilename(first, last)
  {
    CollapseIdempotent(first + "_" + last + FilenameTail);
  }

  /** The rewrite drops only whitespace and underscores, never another character. */
  lemma FilenameKeepsVisible(first: string, last: string)
    ensures Visible(DownloadFilename(first, last)) == Visible(first + "_" + last + FilenameTail)
  {
    CollapseKeepsVisible(first + "_" + last + FilenameTail);
  }

  /** Only regroups the literals of `InnerSpaceFilename`; no meaning of its own. */
  lemma InnerSpaceLiterals()
    ensures "Mary Jane" + "_" + "Smith" + FilenameTail == "Mary" + " " + ("Jane" + "_" + "Smith" + FilenameTail)
    ensures "Mary" + "_" + ("Jane" + "_" + "Smith" + FilenameTail) == "Mary_Jane_Smith_contact_qr.png"
  {
    assert "Mary Jane" == "Mary" + " " + "Jane";
  }

  lemma InnerSpaceNames()
    ensures NoWhitespace("Mary") && NoWhitespace("Jane") && NoWhitespace("Smith")
    ensures IsWhitespace(' ') && !IsWhitespace('J')
  {
  }

  /** An inner space of a name becomes an underscore like the separators. */
  lemma InnerSpaceFilename()
    ensures DownloadFilename("Mary Jane", "Smith") == "Mary_Jane_Smith_contact_qr.png"
  {
    var b := "Jane" + "_" + "Smith" + FilenameTail;
    InnerSpaceLiterals();
    InnerSpaceNames();
    assert b[0] == 'J';
    CollapseRun("Mary", " ", b);
    CollapseNoWhitespace("Mary");
    FilenamePlain("Jane", "Smith");
  }

  // ---------------------------------------------------------------
  // QR service request and image
  // ---------------------------------------------------------------

  /** The side length of the requested image, in pixels, as written in the URL. */
  const QrSize := "300"

  const ServicePrefix := "https://api.qrserver.com/v1/create-qr-code/?size=" + QrSize + "x" + QrSize + "&data="
  const ServiceSuffix := "&format=png&margin=10"

  /** The request URL for an already URI-encoded payload. */
  function QrServiceUrl(encoded: string): (url: string)
    ensures HasPrefix(url, ServicePrefix) && HasSuffix(url, ServiceSuffix)
    ensures |url| == |ServicePrefix| + |encoded| + |ServiceSuffix|
  {
    PrefixOfAppend(ServicePrefix, encoded + ServiceSuffix);
    assert ServicePrefix + encoded + ServiceSuffix == ServicePrefix + (encoded + ServiceSuffix);
    SuffixOfAppend(ServicePrefix + encoded, ServiceSuffix);
    ServicePrefix + encoded + ServiceSuffix
  }

  /** The encoded payload is exactly what lies between the fixed prefix and suffix. */
  lemma QrServiceUrlRecovers(encoded: string)
    ensures var url := QrServiceUrl(encoded);
      url[|ServicePrefix|..|url| - |ServiceSuffix|] == encoded
  {
    var url := QrServiceUrl(encoded);
    assert url == ServicePrefix + encoded + ServiceSuffix;
    assert url[|ServicePrefix|..|url| - |ServiceSuffix|] == encoded;
  }

  /** Different payloads give different requests. */
  lemma QrServiceUrlInjective(a: string, b: string)
    requires QrServiceUrl(a) == QrServiceUrl(b)
    ensures a == b
  {
    QrServiceUrlRecovers(a);
    QrServiceUrlRecovers(b);
  }

  const PngPrefix := "data:image/png;base64,"

  /** What `canvas.toDataURL("image/png")` returns for an image with these encoded bytes. */
  function PngDataUrl(encodedPng: string): (r: string)
    ensures HasPrefix(r, PngPrefix) && r != ""
  {
    PrefixOfAppend(PngPrefix, encodedPng);
    PngPrefix + encodedPng
  }

  /** The outcome of loading the requested image. */
  datatype ImageEvent = Loaded(encodedPng: string) | Failed

  /** What "generate" does: refuse, or request the image for this card text. */
  datatype GenerateResult = MissingFields | Requested(vcard: string, url: string)

  /** What "download" does: refuse, or save the image under this name. */
  datatype DownloadResult = NoImage | Saved(filename: string, href: string)

  // ---------------------------------------------------------------
  // Preview
  // ---------------------------------------------------------------

  const Placeholder := "Fill in the form above to see the vCard data that will be encoded in the QR code."

  /** `generateVCard() || placeholder`. */
  function PreviewText(c: Contact): string {
    match Card(c)
    case Some(text) => if text != "" then text else Placeholder
    case None => Placeholder
  }

  lemma PlaceholderIsNotACard()
    ensures !HasSuffix(Placeholder, "\nEND:VCARD")
  {
    assert Placeholder[|Placeholder| - 1] == '.';
    assert "\nEND:VCARD"[9] == 'D';
  }

  /**
   * The preview is the card text when the form is ready and the
   * placeholder otherwise; the two cannot be confused.
   */
  lemma PreviewShowsCard(c: Contact)
    ensures Ready(c) ==> PreviewText(c) == Card(c).value
    ensures !Ready(c) ==> PreviewText(c) == Placeholder
    ensures PreviewText(c) == Placeholder <==> !Ready(c)
  {
    PlaceholderIsNotACard();
    if Ready(c) {
      CardProperties.CardSuffix(c);
    }
  }

  // ---------------------------------------------------------------
  // The component state
  // ---------------------------------------------------------------

  class Session {
    var formData: Contact
    var qrCodeDataURL: string
    var vcardPreview: string

    /** The preview effect has run since the last change of the form. */
    predicate Settled()
      reads this
    {
      vcardPreview == PreviewText(formData)
    }

    /** The initial state, before the first render's effect. */
    constructor ()
      ensures formData == EmptyContact && qrCodeDataURL == "" && vcardPreview == ""
    {
      formData := EmptyContact;
      qrCodeDataURL := "";
      vcardPreview := "";
    }

    /** `handleInputChange(field, value)`: one field replaced, the other eight kept. */
    method HandleInputChange(field: Field, value: string)
      modifies this`formData
      ensures formData == With(old(formData), field, value)
      ensures Get(formData, field) == value
      ensures forall g :: g != field ==> Get(formData, g) == Get(old(formData), g)
    {
      formData := With(formData, field, value);
    }

    /** The preview effect: it runs after every change of the form, and on mount. */
    method RefreshPreview()
      modifies this`vcardPreview
      ensures vcardPreview == PreviewText(formData)
      ensures Settled()
    {
      var vcard := GenerateVCard(formData);
      if vcard.Some? && vcard.value != "" {
        vcardPreview := vcard.value;
      } else {
        vcardPreview := Placeholder;
      }
    }

    /**
     * `generateQRCode`: on a form that is not ready nothing is requested;
     * otherwise the image for the card text is requested. The image
     * already shown stays until the new one has loaded.
     */
    method GenerateQRCode(encodeURIComponent: string -> string) returns (r: GenerateResult)
      ensures r.MissingFields? <==> !Ready(formData)
      ensures r.Requested? ==> Card(formData) == Some(r.vcard)
      ensures r.Requested? ==> r.url == QrServiceUrl(encodeURIComponent(r.vcard))
    {
      var vcard := GenerateVCard(formData);
      if Ready(formData) {
        CardProperties.CardSuffix(formData);
      }
      if vcard.None? || vcard.value == "" {
        return MissingFields;
      }
      var url := ServicePrefix + encodeURIComponent(vcard.value) + ServiceSuffix;
      return Requested(vcard.value, url);
    }

    /** `img.onload` stores the PNG data URL; `img.onerror` leaves the old image. */
    method CompleteImageLoad(e: ImageEvent)
      modifies this`qrCodeDataURL
      ensures e.Loaded? ==> qrCodeDataURL == PngDataUrl(e.encodedPng)
      ensures e.Failed? ==> qrCodeDataURL == old(qrCodeDataURL)
    {
      match e
      case Loaded(png) =>
        qrCodeDataURL := PngDataUrl(png);
      case Failed =>
    }

    /**
     * `downloadQR`: refused while there is no image; otherwise the image is
     * saved under the filename derived from the current names.
     */
    method DownloadQR() returns (r: DownloadResult)
      ensures r.NoImage? <==> qrCodeDataURL == ""
      ensures r.Saved? ==> r.href == qrCodeDataURL
      ensures r.Saved? ==> r.filename == DownloadFilename(formData.firstName, formData.lastName)
    {
      if qrCodeDataURL == "" {
        return NoImage;
      }
      var filename := CollapseWhitespace(formData.firstName + "_" + formData.lastName + FilenameTail);
      return Saved(filename, qrCodeDataURL);
    }

    /** A successful load followed by "download" saves the new image. */
    method LoadThenDownload(encodedPng: string) returns (r: DownloadResult)
      modifies this`qrCodeDataURL
      ensures qrCodeDataURL == PngDataUrl(encodedPng)
      ensures r == Saved(DownloadFilename(formData.firstName, formData.lastName), PngDataUrl(encodedPng))
    {
      CompleteImageLoad(Loaded(encodedPng));
      r := DownloadQR();
    }

    /** A failed load before any image has loaded still leaves nothing to download. */
    method FailThenDownload() returns (r: DownloadResult)
      requires qrCodeDataURL == ""
      modifies this`qrCodeDataURL
      ensures qrCodeDataURL == "" && r == NoImage
    {
      CompleteImageLoad(Failed);
      r := DownloadQR();
    }
  }
}
