/** The composition half of `send_email`: the outbound message built from
    the collected fields, with one MIME part per attachment. Delivery over
    SMTP is not modelled here; the wizard hands the composed message to the
    mail server as an effect. */
module Mail {
  import opened Wrappers
  import opened Text
  import opened Attachments

  /** The mail server every report goes through, reached on the submission
      port and upgraded with STARTTLS. */
  const SmtpHost: string := "smtp.gmail.com"
  const SmtpPort: nat := 587

  /** One attachment part: its content type split into major and minor
      type, the declared file name, and the raw bytes. */
  datatype Part = Part(maintype: string, subtype: string, fileName: Option<string>, content: seq<bv8>)

  /** The composed message: headers, plain-text body, attachment parts in order. */
  datatype Message = Message(from: string, to: string, subject: string, body: string, parts: seq<Part>)

  /** The Content-Type value the part is given: the major type, '/', and
      the minor type. */
  function ContentTypeValue(mime: string): (v: string)
    requires '/' in mime
  {
    SplitHasSecondPiece(mime, '/');
    var pieces := Split(mime, '/');
    pieces[0] + "/" + pieces[1]
  }

  /** Whether the file name survives the Content-Disposition parameter. An
      ASCII name is quoted into the header as it is, so any line break in it
      splits the header and raises; a name with a non-ASCII character is
      percent-encoded first, and always fits. */
  predicate FileNameFits(fileName: Option<string>)
  {
    || fileName.None?
    || (exists k :: 0 <= k < |fileName.value| && fileName.value[k] as int >= 0x80)
    || (forall k :: 0 <= k < |fileName.value| ==> !IsLineBreak(fileName.value[k]))
  }

  /** The part for one attachment: `maintype` is piece 0 and `subtype` piece 1
      of the MIME type split at '/'. Building it raises, which is `None` here,
      when the MIME type is missing (`None.split`), has no '/' (index 1 out of
      range), or gives a Content-Type value of more than one line, and when
      the file name does not fit its header parameter. Every header value of
      the message must be a single line, as `str.splitlines()` counts them. */
  function ToPart(a: Attachment): (r: Option<Part>)
    ensures r.Some? <==>
              && a.mimeType.Some? && '/' in a.mimeType.value
              && SingleLine(ContentTypeValue(a.mimeType.value))
              && FileNameFits(a.fileName)
    ensures r.Some? ==> r.value.maintype + "/" + r.value.subtype == ContentTypeValue(a.mimeType.value)
    ensures r.Some? ==> r.value.content == a.content && r.value.fileName == a.fileName
  {
    match a.mimeType
    case None => None
    case Some(mime) =>
      var pieces := Split(mime, '/');
      SplitHasSecondPiece(mime, '/');
      if |pieces| < 2 then None
      else if !SingleLine(pieces[0] + "/" + pieces[1]) || !FileNameFits(a.fileName) then None
      else Some(Part(pieces[0], pieces[1], a.fileName, a.content))
  }

  /** What the split means for a MIME type: the major type is the text before
      the first '/', the minor type the text after it up to the next '/' (or
      the end), and neither contains '/'. */
  lemma ToPartSplitsMimeType(a: Attachment)
    requires ToPart(a).Some?
    ensures var p := ToPart(a).value;
            var mime := a.mimeType.value;
            && '/' !in p.maintype && '/' !in p.subtype
            && p.maintype + "/" + p.subtype <= mime
            && (|p.maintype| + 1 + |p.subtype| < |mime| ==> mime[|p.maintype| + 1 + |p.subtype|] == '/')
  {
    var mime := a.mimeType.value;
    var pieces := Split(mime, '/');
    SplitHasSecondPiece(mime, '/');
    JoinSplit(mime, '/');
    var n := |pieces[0]| + 1 + |pieces[1]|;
    if |pieces| == 2 {
      assert Join(pieces[1..], '/') == pieces[1];
      assert mime == pieces[0] + "/" + pieces[1];
    } else {
      assert Join(pieces[1..], '/') == pieces[1] + "/" + Join(pieces[2..], '/');
      assert mime == (pieces[0] + "/" + pieces[1]) + ("/" + Join(pieces[2..], '/'));
      assert mime[n] == '/';
    }
    assert mime[..n] == pieces[0] + "/" + pieces[1];
  }

  /** The parts for a list of attachments, in the same order; `None` as soon
      as one attachment has no usable MIME type. */
  function ComposeParts(atts: seq<Attachment>): (r: Option<seq<Part>>)
    ensures r.Some? <==> forall i :: 0 <= i < |atts| ==> ToPart(atts[i]).Some?
    ensures r.Some? ==> |r.value| == |atts|
    ensures r.Some? ==> forall i :: 0 <= i < |atts| ==> r.value[i] == ToPart(atts[i]).value
  {
    if |atts| == 0 then Some([])
    else
      match ToPart(atts[0])
      case None => None
      case Some(p) =>
        match ComposeParts(atts[1..])
        case None => None
        case Some(ps) => Some([p] + ps)
  }

  /** Whether the message can be built at all: the From, To and Subject
      values are single lines, and every attachment yields its part. */
  predicate Encodable(from: string, to: string, subject: string, atts: seq<Attachment>)
  {
    && SingleLine(from) && SingleLine(to) && SingleLine(subject)
    && forall i :: 0 <= i < |atts| ==> ToPart(atts[i]).Some?
  }

  /** The message `send_email` builds before connecting: From, To, Subject
      and body copied from the collected fields, one part per attachment.
      Storing a header value of more than one line raises, as does an
      attachment without a part. */
  function Compose(from: string, to: string, subject: string, body: string,
                   atts: seq<Attachment>): (r: Option<Message>)
    ensures r.Some? <==> Encodable(from, to, subject, atts)
    ensures r.Some? ==> r.value.from == from && r.value.to == to
                        && r.value.subject == subject && r.value.body == body
    ensures r.Some? ==> |r.value.parts| == |atts|
    ensures r.Some? ==> forall i :: 0 <= i < |atts| ==>
                          r.value.parts[i].content == atts[i].content
                          && r.value.parts[i].fileName == atts[i].fileName
  {
    if !SingleLine(from) || !SingleLine(to) || !SingleLine(subject) then None
    else
      match ComposeParts(atts)
      case None => None
      case Some(parts) => Some(Message(from, to, subject, body, parts))
  }

  /** A subject typed over two lines cannot be stored as a header, so the
      message is never built. */
  lemma TwoLineSubjectRejected()
    ensures LineCount("S\nT") == 2
    ensures Compose("a@b.com", "abuse@telegram.org", "S\nT", "B", []).None?
  {
    SingleLineIffOneLine("S\nT");
  }

  /** A MIME type made of two '/'-free pieces is its own Content-Type value. */
  lemma ContentTypeOfPair(major: string, minor: string)
    requires '/' !in major && '/' !in minor
    ensures '/' in major + "/" + minor
    ensures ContentTypeValue(major + "/" + minor) == major + "/" + minor
  {
    var mime := major + "/" + minor;
    assert mime[|major|] == '/';
    SplitJoin([major, minor], '/');
    assert Join([major, minor], '/') == mime;
  }

  /** "image/png" is its own single-line Content-Type value. */
  lemma PngContentType(mime: string)
    requires mime == "image/png"
    ensures '/' in mime && ContentTypeValue(mime) == mime && SingleLine(mime)
  {
    assert mime == "image" + "/" + "png";
    ContentTypeOfPair("image", "png");
    PrintableSingleLine(mime);
  }

  /** A PNG attachment yields its part exactly when its file name fits. */
  lemma PngPartNeedsFittingName(content: seq<bv8>, fileName: Option<string>)
    ensures ToPart(Attachment(fileName, Some("image/png"), content)).Some? <==> FileNameFits(fileName)
  {
    PngContentType("image/png");
  }

  /** An ASCII file name with a line break raises, whatever the file holds;
      the same break in a name with a non-ASCII character is encoded away. */
  lemma FileNameLineBreak(content: seq<bv8>)
    ensures ToPart(Attachment(Some("a\nb"), Some("image/png"), content)).None?
    ensures ToPart(Attachment(Some("\U{e0}\nb"), Some("image/png"), content)).Some?
  {
    var ascii := "a\nb";
    assert IsLineBreak(ascii[1]);
    assert forall k :: 0 <= k < |ascii| ==> ascii[k] as int < 0x80;
    PngPartNeedsFittingName(content, Some(ascii));
    assert "\U{e0}\nb"[0] as int >= 0x80;
    PngPartNeedsFittingName(content, Some("\U{e0}\nb"));
  }

  /** The combined byte length of the parts. */
  function PartsSize(parts: seq<Part>): nat
  {
    if |parts| == 0 then 0 else |parts[0].content| + PartsSize(parts[1..])
  }

  /** The parts carry exactly the bytes of the attachments they come from. */
  lemma {:induction false} ComposePartsSize(atts: seq<Attachment>)
    requires ComposeParts(atts).Some?
    ensures PartsSize(ComposeParts(atts).value) == TotalSize(atts)
  {
    if |atts| > 0 {
      ComposePartsSize(atts[1..]);
      assert ComposeParts(atts).value[1..] == ComposeParts(atts[1..]).value;
    }
  }
}
