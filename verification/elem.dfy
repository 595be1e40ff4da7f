/** The message-element classifier: the conversion of a raw protobuf message element
    into the typed element `RQElem`, its preview rendering, the attribute-extraction
    helper the per-element renderers share, and the `impl_from!` injections. */
module Elem {
  import opened Wrappers
  import opened TextSearch
  import opened Bytes

  // ---------------------------------------------------------------------------
  // Raw protobuf elements (the `msg::elem::Elem` oneof), reduced to the fields
  // the classifier reads plus enough payload to tell elements apart.
  // Optional protobuf fields are `Option`s; prost getters read them with a default.
  // ---------------------------------------------------------------------------

  datatype TextPb = TextPb(str: Option<string>, attr6Buf: Option<bytes>, attr7Buf: Option<bytes>, pbReserve: Option<bytes>)
  datatype FacePb = FacePb(index: Option<int>, oldData: Option<bytes>, buf: Option<bytes>)
  datatype CommonElemPb = CommonElemPb(serviceType: Option<int>, pbElem: Option<bytes>, businessType: Option<int>)
  /** A market face; `faceName` is its caption as text. */
  datatype MarketFacePb = MarketFacePb(faceName: string, faceId: bytes, tabId: Option<int>, magicValue: Option<bytes>)
  datatype LightAppPb = LightAppPb(data: Option<bytes>, msgResid: Option<bytes>)
  datatype RichMsgPb = RichMsgPb(template1: Option<bytes>, serviceId: Option<int>, msgResid: Option<bytes>)
  datatype VideoFilePb = VideoFilePb(fileUuid: Option<bytes>, fileMd5: Option<bytes>, fileName: Option<bytes>, fileSize: Option<int>)
  datatype NotOnlineImagePb = NotOnlineImagePb(filePath: Option<bytes>, fileLen: Option<int>, resId: Option<bytes>, picMd5: Option<bytes>)
  datatype CustomFacePb = CustomFacePb(filePath: Option<string>, fileId: Option<int>, md5: Option<bytes>, size: Option<int>)

  /** The raw element. `UnlistedElem` stands for every other kind of the oneof
      (reply source, anonymous marker, general flags, ...), identified by its
      protobuf field number and carrying its encoded payload. Its field number is
      never that of one of the nine kinds listed before it: an element of a listed
      kind is always written with that kind's own constructor. */
  datatype RawElem =
    | TextElem(text: TextPb)
    | FaceElem(face: FacePb)
    | CommonElem(common: CommonElemPb)
    | MarketFaceElem(marketFace: MarketFacePb)
    | LightAppElem(lightApp: LightAppPb)
    | RichMsgElem(richMsg: RichMsgPb)
    | VideoFileElem(videoFile: VideoFilePb)
    | NotOnlineImageElem(notOnlineImage: NotOnlineImagePb)
    | CustomFaceElem(customFace: CustomFacePb)
    | UnlistedElem(fieldNumber: nat, payload: bytes)

  /** The message nested in a common element of service type 3 (a flash picture). */
  datatype Servtype3 = Servtype3(flashTroopPic: Option<CustomFacePb>, flashC2cPic: Option<NotOnlineImagePb>)

  /** The message nested in a common element of service type 33 (an extended face). */
  datatype Servtype33 = Servtype33(index: Option<int>, text: Option<bytes>, compat: Option<bytes>)

  /** The two nested protobuf decoders; `None` is a decode failure. */
  datatype Decoders = Decoders(servtype3: bytes -> Option<Servtype3>, servtype33: bytes -> Option<Servtype33>)

  /** prost getter: an absent `attr6_buf` reads as empty. */
  function Attr6Buf(t: TextPb): bytes {
    t.attr6Buf.GetOr([])
  }

  /** prost getter: an absent `service_type` reads as 0. */
  function ServiceType(c: CommonElemPb): int {
    c.serviceType.GetOr(0)
  }

  /** prost getter: an absent `pb_elem` reads as empty. */
  function PbElem(c: CommonElemPb): bytes {
    c.pbElem.GetOr([])
  }

  // ---------------------------------------------------------------------------
  // Typed elements. Each typed variant carries the protobuf value the per-element
  // conversion was given; what that conversion extracts is outside this model.
  // ---------------------------------------------------------------------------

  /** A face comes either from a classic face element or from the service-type-33 message. */
  datatype FaceSource = ClassicFace(classic: FacePb) | ExtendedFace(extended: Servtype33)

  /** A typed market face: its caption and the element it was read from. */
  datatype MarketFaceInfo = MarketFaceInfo(name: string, source: MarketFacePb)

  /** A flash picture wraps either a group image or a friend image. */
  datatype FlashPic = FlashGroup(groupImage: CustomFacePb) | FlashFriend(friendImage: NotOnlineImagePb)

  datatype RQElem =
    | At(at: TextPb)
    | Text(text: TextPb)
    | Face(face: FaceSource)
    | MarketFace(marketFace: MarketFaceInfo)
    | Dice(dice: MarketFaceInfo)
    | FingerGuessing(fingerGuessing: MarketFaceInfo)
    | LightApp(lightApp: LightAppPb)
    | RichMsg(richMsg: RichMsgPb)
    | FriendImage(friendImage: NotOnlineImagePb)
    | GroupImage(groupImage: CustomFacePb)
    | FlashImage(flashImage: FlashPic)
    | VideoFile(videoFile: VideoFilePb)
    | Other(raw: RawElem)

  /** `MarketFace::from`: the caption is the element's face name. */
  function MarketFaceOf(m: MarketFacePb): MarketFaceInfo {
    MarketFaceInfo(m.faceName, m)
  }

  /** Caption of a dice face added from the store. */
  const RandomDiceCaption: string := "[随机骰子]"
  /** Caption of a dice face kept from long-ago favourites. */
  const DiceCaption: string := "[骰子]"
  /** Caption of the finger-guessing (rock-paper-scissors) face. */
  const FingerGuessingCaption: string := "[猜拳]"

  // ---------------------------------------------------------------------------
  // Classification
  // ---------------------------------------------------------------------------

  /** The element is a common element whose nested message was decoded into a typed
      element, so the typed element no longer carries the raw element. */
  ghost predicate NestedDecoded(e: RawElem, dec: Decoders) {
    && e.CommonElem?
    && (|| (ServiceType(e.common) == 3
            && dec.servtype3(PbElem(e.common)).Some?
            && (dec.servtype3(PbElem(e.common)).value.flashTroopPic.Some?
                || dec.servtype3(PbElem(e.common)).value.flashC2cPic.Some?))
        || (ServiceType(e.common) == 33 && dec.servtype33(PbElem(e.common)).Some?))
  }

  /** The raw element a typed element was built from directly, when it still
      carries it; the partner of `Classify`. */
  function Restore(r: RQElem): Option<RawElem> {
    match r
    case At(t) => Some(TextElem(t))
    case Text(t) => Some(TextElem(t))
    case Face(ClassicFace(f)) => Some(FaceElem(f))
    case Face(ExtendedFace(_)) => None
    case MarketFace(m) => Some(MarketFaceElem(m.source))
    case Dice(m) => Some(MarketFaceElem(m.source))
    case FingerGuessing(m) => Some(MarketFaceElem(m.source))
    case LightApp(a) => Some(LightAppElem(a))
    case RichMsg(m) => Some(RichMsgElem(m))
    case FriendImage(i) => Some(NotOnlineImageElem(i))
    case GroupImage(i) => Some(CustomFaceElem(i))
    case FlashImage(_) => None
    case VideoFile(v) => Some(VideoFileElem(v))
    case Other(raw) => Some(raw)
  }

  /** The market-face information a typed element carries, if it is one of the three
      market-face variants. */
  function MarketInfo(r: RQElem): Option<MarketFaceInfo> {
    match r
    case MarketFace(m) => Some(m)
    case Dice(m) => Some(m)
    case FingerGuessing(m) => Some(m)
    case _ => None
  }

  /** `From<msg::elem::Elem> for RQElem`, defined on every element. `Other` keeps
      exactly the input; every other result is built from the input element itself,
      or from its decoded nested message. */
  function Classify(e: RawElem, dec: Decoders): (r: RQElem)
    ensures r.Other? ==> r.raw == e
    ensures r.Other? <==> e.UnlistedElem? || (e.CommonElem? && !NestedDecoded(e, dec))
    ensures Restore(r) == if NestedDecoded(e, dec) then None else Some(e)
    ensures e.MarketFaceElem? ==> MarketInfo(r) == Some(MarketFaceOf(e.marketFace))
    ensures e.VideoFileElem? ==> r == VideoFile(e.videoFile)
  {
    match e
    case TextElem(t) =>
      if |Attr6Buf(t)| != 0 then At(t) else Text(t)
    case FaceElem(f) => Face(ClassicFace(f))
    case CommonElem(c) =>
      if ServiceType(c) == 3 then
        match dec.servtype3(PbElem(c))
        case Some(flash) =>
          if flash.flashTroopPic.Some? then FlashImage(FlashGroup(flash.flashTroopPic.value))
          else if flash.flashC2cPic.Some? then FlashImage(FlashFriend(flash.flashC2cPic.value))
          else Other(e)
        case None => Other(e)
      else if ServiceType(c) == 33 then
        match dec.servtype33(PbElem(c))
        case Some(newFace) => Face(ExtendedFace(newFace))
        case None => Other(e)
      else Other(e)
    case MarketFaceElem(m) =>
      var face := MarketFaceOf(m);
      if face.name == DiceCaption || face.name == RandomDiceCaption then Dice(face)
      else if face.name == FingerGuessingCaption then FingerGuessing(face)
      else MarketFace(face)
    case LightAppElem(a) => LightApp(a)
    case RichMsgElem(m) => RichMsg(m)
    case VideoFileElem(v) => VideoFile(v)
    case NotOnlineImageElem(i) => FriendImage(i)
    case CustomFaceElem(i) => GroupImage(i)
    case UnlistedElem(_, _) => Other(e)
  }

  /** A text element is a mention exactly when its `attr6_buf` is present and non-empty;
      an absent buffer counts as empty. */
  lemma ClassifyText(t: TextPb, dec: Decoders)
    ensures Classify(TextElem(t), dec).At? <==> (t.attr6Buf.Some? && |t.attr6Buf.value| > 0)
    ensures Classify(TextElem(t), dec) == At(t) || Classify(TextElem(t), dec) == Text(t)
  {
  }

  /** Service type 3: a troop picture wins over a C2C picture; a failed decode or a
      message with neither picture keeps the original element. */
  lemma ClassifyFlash(c: CommonElemPb, dec: Decoders)
    requires ServiceType(c) == 3
    ensures dec.servtype3(PbElem(c)).None? ==> Classify(CommonElem(c), dec) == Other(CommonElem(c))
    ensures dec.servtype3(PbElem(c)).Some? ==>
      var flash := dec.servtype3(PbElem(c)).value;
      && (flash.flashTroopPic.Some? ==>
            Classify(CommonElem(c), dec) == FlashImage(FlashGroup(flash.flashTroopPic.value)))
      && (flash.flashTroopPic.None? && flash.flashC2cPic.Some? ==>
            Classify(CommonElem(c), dec) == FlashImage(FlashFriend(flash.flashC2cPic.value)))
      && (flash.flashTroopPic.None? && flash.flashC2cPic.None? ==>
            Classify(CommonElem(c), dec) == Other(CommonElem(c)))
  {
  }

  /** Service type 33: a face when the nested message decodes, the original element otherwise. */
  lemma ClassifyExtendedFace(c: CommonElemPb, dec: Decoders)
    requires ServiceType(c) == 33
    ensures dec.servtype33(PbElem(c)).Some? ==>
      Classify(CommonElem(c), dec) == Face(ExtendedFace(dec.servtype33(PbElem(c)).value))
    ensures dec.servtype33(PbElem(c)).None? ==> Classify(CommonElem(c), dec) == Other(CommonElem(c))
  {
  }

  /** Any other service type, including an absent one, and every unlisted element kind
      is passed through as `Other`, holding exactly the input element. */
  lemma ClassifyPassthrough(e: RawElem, dec: Decoders)
    requires e.UnlistedElem? || (e.CommonElem? && ServiceType(e.common) != 3 && ServiceType(e.common) != 33)
    ensures Classify(e, dec) == Other(e)
  {
  }

  /** Market faces are told apart by exact caption: both dice captions give `Dice`,
      the finger-guessing caption gives `FingerGuessing`, anything else `MarketFace`. */
  lemma ClassifyMarketFace(m: MarketFacePb, dec: Decoders)
    ensures Classify(MarketFaceElem(m), dec).Dice? <==> m.faceName in {DiceCaption, RandomDiceCaption}
    ensures Classify(MarketFaceElem(m), dec).FingerGuessing? <==> m.faceName == FingerGuessingCaption
    ensures Classify(MarketFaceElem(m), dec).MarketFace? <==>
      m.faceName !in {DiceCaption, RandomDiceCaption, FingerGuessingCaption}
  {
  }

  // ---------------------------------------------------------------------------
  // Rendering (`Display for RQElem`)
  // ---------------------------------------------------------------------------

  /** Variants with a textual approximation. */
  predicate Textual(e: RQElem) {
    e.At? || e.Text? || e.Face? || e.GroupImage? || e.FriendImage? || e.FlashImage?
    || e.LightApp? || e.RichMsg?
  }

  /** `Display for RQElem`; `show` is the Display of the inner typed element, which is
      outside this model. A textual variant is followed by one separator space; the
      others write nothing at all. */
  function Render(e: RQElem, show: RQElem -> string): (r: string)
    ensures Textual(e) ==> |r| == |show(e)| + 1 && r[..|show(e)|] == show(e) && r[|show(e)|] == ' '
    ensures !Textual(e) ==> r == ""
  {
    match e
    case At(_) => show(e) + " "
    case Text(_) => show(e) + " "
    case Face(_) => show(e) + " "
    case GroupImage(_) => show(e) + " "
    case FriendImage(_) => show(e) + " "
    case FlashImage(_) => show(e) + " "
    case LightApp(_) => show(e) + " "
    case RichMsg(_) => show(e) + " "
    case _ => ""
  }

  /** Raw elements whose classification renders nothing: market faces (all three
      variants), video files, unlisted kinds, and common elements whose nested message
      did not give a typed element. */
  ghost predicate RendersNothing(e: RawElem, dec: Decoders) {
    || e.MarketFaceElem?
    || e.VideoFileElem?
    || e.UnlistedElem?
    || (e.CommonElem? && !NestedDecoded(e, dec))
  }

  /** The preview of a classified element is empty exactly for the raw kinds
      `RendersNothing` names, and otherwise ends in the single separator. */
  lemma RenderClassified(e: RawElem, dec: Decoders, show: RQElem -> string)
    ensures Render(Classify(e, dec), show) == "" <==> RendersNothing(e, dec)
    ensures !RendersNothing(e, dec) ==>
      Render(Classify(e, dec), show) == show(Classify(e, dec)) + " "
  {
  }

  // ---------------------------------------------------------------------------
  // `fmt_extract_attr`
  // ---------------------------------------------------------------------------

  /** `begin` last occurs in `i` at `k`, and `end` first occurs `j` characters after it. */
  ghost predicate Brackets(i: string, begin: string, end: string, k: int, j: int) {
    IsLast(i, begin, k) && IsFirst(i[k + |begin|..], end, j)
  }

  /** `fmt_extract_attr`: the text ` name='v'` where `v` lies between the last `begin`
      marker of `i` and the first `end` marker after it; nothing when either marker
      is missing (a missing attribute is not an error). */
  function ExtractAttr(i: string, name: string, begin: string, end: string): (r: string)
    ensures r != "" <==> exists k, j :: Brackets(i, begin, end, k, j)
    ensures forall k, j :: Brackets(i, begin, end, k, j) ==>
      r == " " + name + "='" + i[k + |begin|..][..j] + "'"
  {
    match RSplitOnce(i, begin)
    case None => ""
    case Some((before, after)) =>
      assert after == i[|before| + |begin|..] by {
        assert i == before + begin + after;
        assert i[|before| + |begin|..] == (before + begin + after)[|before| + |begin|..];
      }
      forall k | IsLast(i, begin, k)
        ensures k == |before|
      {
        LastIsUnique(i, begin, k, |before|);
      }
      match SplitOnce(after, end)
      case None => ""
      case Some((v, _)) =>
        forall k, j | Brackets(i, begin, end, k, j)
          ensures j == |v| && v == i[k + |begin|..][..j]
        {
          FirstIsUnique(after, end, j, |v|);
        }
        assert Brackets(i, begin, end, |before|, |v|);
        " " + name + "='" + v + "'"
  }

  /** The extracted value holds no complete `end` marker (the first one was taken)
      and no complete `begin` marker (the last one was taken). */
  lemma ExtractedValueAvoidsMarkers(i: string, begin: string, end: string, k: int, j: int)
    requires Brackets(i, begin, end, k, j)
    ensures |end| > 0 ==> Absent(i[k + |begin|..][..j], end)
    ensures |begin| > 0 ==> Absent(i[k + |begin|..][..j], begin)
  {
    var tail := i[k + |begin|..];
    var v := tail[..j];
    assert v == tail[0..j];
    forall m | 0 <= m <= |v| && |end| > 0
      ensures !OccursAt(v, end, m)
    {
      OccursInSlice(tail, end, 0, j, m);
    }
    forall m | 0 <= m <= |v| && |begin| > 0
      ensures !OccursAt(v, begin, m)
    {
      OccursInSlice(tail, begin, 0, j, m);
      assert tail == i[k + |begin|..|i|];
      OccursInSlice(i, begin, k + |begin|, |i|, m);
    }
  }

  // ---------------------------------------------------------------------------
  // `impl_from!`: injections of the typed elements (there is none for VideoFile)
  // ---------------------------------------------------------------------------

  function FromAt(a: TextPb): RQElem { At(a) }
  function FromText(t: TextPb): RQElem { Text(t) }
  function FromFace(f: FaceSource): RQElem { Face(f) }
  function FromMarketFace(m: MarketFaceInfo): RQElem { MarketFace(m) }
  function FromDice(d: MarketFaceInfo): RQElem { Dice(d) }
  function FromFingerGuessing(g: MarketFaceInfo): RQElem { FingerGuessing(g) }
  function FromLightApp(a: LightAppPb): RQElem { LightApp(a) }
  function FromRichMsg(m: RichMsgPb): RQElem { RichMsg(m) }
  function FromFriendImage(i: NotOnlineImagePb): RQElem { FriendImage(i) }
  function FromGroupImage(i: CustomFacePb): RQElem { GroupImage(i) }
  function FromFlashImage(f: FlashPic): RQElem { FlashImage(f) }
  /** `From<Box<Elem>>`: wraps without classifying. */
  function FromBoxed(e: RawElem): RQElem { Other(e) }

  /** Each injection keeps its argument unchanged, so it is injective; and boxing a
      raw element bypasses classification, even of elements `Classify` would type. */
  lemma InjectionsKeepArgument(t: TextPb, f: FaceSource, m: MarketFaceInfo, a: LightAppPb, rm: RichMsgPb,
                               fi: NotOnlineImagePb, gi: CustomFacePb, fp: FlashPic, e: RawElem)
    ensures FromAt(t).at == t && FromText(t).text == t && FromFace(f).face == f
    ensures FromMarketFace(m).marketFace == m && FromDice(m).dice == m
    ensures FromFingerGuessing(m).fingerGuessing == m
    ensures FromLightApp(a).lightApp == a && FromRichMsg(rm).richMsg == rm
    ensures FromFriendImage(fi).friendImage == fi && FromGroupImage(gi).groupImage == gi
    ensures FromFlashImage(fp).flashImage == fp
    ensures FromBoxed(e) == Other(e) && Restore(FromBoxed(e)) == Some(e)
  {
  }
}
