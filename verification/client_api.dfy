/** The single-request operations of the client session API: setting the online
    status, batch translation and sending a message. Every collaborator outcome is
    an input; the requests made are returned beside the result. */
module ClientApi {
  import opened Wrappers
  import opened Protocol
  import opened Bytes

  // ---------------------------------------------------------------------------
  // update_online_status
  // ---------------------------------------------------------------------------

  /** A custom wording is acceptable when it has 1 to 4 characters (code points). */
  predicate ValidWording(w: string) {
    |w| != 0 && |w| <= 4
  }

  const InvalidWording: RQError := Other("invalid wording length")

  /** `update_online_status`: a custom wording outside 1..4 characters is refused
      before any packet is built; otherwise the status packet is sent and the reply's
      outcome is returned. */
  function UpdateOnlineStatus(status: Status, reply: RQResult<()>): (r: Run<()>)
    ensures r.calls == [] <==> (status.customStatus.Some? && !ValidWording(status.customStatus.value.wording))
    ensures r.calls == [] ==> r.result == Err(InvalidWording)
    ensures r.calls != [] ==>
      && r.calls == [SetOnlineStatus(status.onlineStatus, status.extOnlineStatus, status.customStatus)]
      && r.result == reply
  {
    if status.customStatus.Some? && (|status.customStatus.value.wording| == 0 || |status.customStatus.value.wording| > 4) then
      Run(Err(InvalidWording), [])
    else
      Run(reply, [SetOnlineStatus(status.onlineStatus, status.extOnlineStatus, status.customStatus)])
  }

  /** Number of bytes the UTF-8 encoding of `c` takes. */
  function Utf8Width(c: char): nat {
    var n := c as int;
    if n < 0x80 then 1 else if n < 0x800 then 2 else if n < 0x1_0000 then 3 else 4
  }

  /** Length of the UTF-8 encoding of `s`, which is what a byte count would measure. */
  function Utf8Len(s: string): nat {
    if |s| == 0 then 0 else Utf8Width(s[0]) + Utf8Len(s[1..])
  }

  /** Each character takes at least one byte, so measuring in characters admits every
      wording a byte measure would admit. */
  lemma {:induction false} Utf8LenAtLeastChars(s: string)
    ensures Utf8Len(s) >= |s|
    ensures 1 <= Utf8Len(s) <= 4 ==> ValidWording(s)
  {
    if |s| != 0 {
      Utf8LenAtLeastChars(s[1..]);
    }
  }

  /** The length check counts characters, not bytes: four CJK characters (twelve
      UTF-8 bytes) pass, while five ASCII characters and the empty wording fail. */
  lemma WordingCountsCharacters(other: RQResult<()>)
    ensures Utf8Len("在线状态") == 12
    ensures UpdateOnlineStatus(Status(11, 0, Some(CustomStatus(1, "在线状态"))), other).calls
         == [SetOnlineStatus(11, 0, Some(CustomStatus(1, "在线状态")))]
    ensures UpdateOnlineStatus(Status(11, 0, Some(CustomStatus(1, "在线状态"))), other).result == other
    ensures UpdateOnlineStatus(Status(11, 0, Some(CustomStatus(1, "hello"))), other).result == Err(InvalidWording)
    ensures UpdateOnlineStatus(Status(11, 0, Some(CustomStatus(1, ""))), other).calls == []
  {
  }

  // ---------------------------------------------------------------------------
  // translate
  // ---------------------------------------------------------------------------

  const TranslateLengthError: RQError := Other("translate length error")

  /** `translate`: `reply` is the decoded response (or the transport / decode error).
      The translations are returned unchanged only when there is one per input. */
  function Translate(srcLanguage: string, dstLanguage: string, texts: seq<string>,
                     reply: RQResult<seq<string>>): (r: Run<seq<string>>)
    ensures r.calls == [TranslateRequest(srcLanguage, dstLanguage, texts)]
    ensures r.result.Ok? <==> reply.Ok? && |reply.value| == |texts|
    ensures r.result.Ok? ==> r.result.value == reply.value
    ensures reply.Err? ==> r.result == reply
    ensures reply.Ok? && |reply.value| != |texts| ==> r.result == Err(TranslateLengthError)
  {
    var call := [TranslateRequest(srcLanguage, dstLanguage, texts)];
    match reply
    case Err(e) => Run(Err(e), call)
    case Ok(translations) =>
      if |translations| != |texts| then Run(Err(TranslateLengthError), call)
      else Run(Ok(translations), call)
  }

  /** A reply with fewer translations than inputs is a protocol error, however the
      translations themselves read. */
  lemma TranslateCountMismatch(a: string, b: string, c: string, t1: string, t2: string)
    ensures Translate("en", "zh", [a, b, c], Ok([t1, t2])).result == Err(TranslateLengthError)
  {
  }

  // ---------------------------------------------------------------------------
  // send_message
  // ---------------------------------------------------------------------------

  /** `MessageReceipt`. */
  datatype MessageReceipt = MessageReceipt(seqs: seq<int>, rands: seq<int>, time: int)

  /** `x >> 1` on an unsigned 32-bit value. */
  function ShiftRight1(x: u32): u32 {
    x / 2
  }

  /** `(rand::random::<u32>() >> 1) as i32`: always a non-negative 32-bit signed value. */
  function Nonce(random: u32): (n: int)
    ensures 0 <= n < 0x8000_0000
  {
    AsI32(ShiftRight1(random))
  }

  /** Every non-negative 32-bit signed value is a possible nonce, and only the lowest
      bit of the random word is lost. */
  lemma NonceCoversNonNegative(n: int)
    requires 0 <= n < 0x8000_0000
    ensures Nonce(2 * n) == n && Nonce(2 * n + 1) == n
  {
  }

  /** `send_message`: `msgSeq` is the engine's next friend sequence, `random` the random
      word, `time` and `receiptTime` the two clock readings, `reply` the transport
      outcome. The receipt waiter is registered before the packet is sent, and stays
      registered when sending fails. */
  function SendMessage(routingHead: bytes, elems: bytes, ptt: Option<bytes>, msgSeq: int, random: u32,
                       time: int, reply: RQResult<()>, receiptTime: int): (r: Run<MessageReceipt>)
    ensures |r.calls| == 2
    ensures r.calls[0].RegisterReceiptWaiter? && r.calls[1].SendMessagePacket?
    ensures r.calls[0].nonce == r.calls[1].ran >= 0
    ensures r.calls[1] == SendMessagePacket(routingHead, elems, ptt, msgSeq, random as int / 2, time)
    ensures r.result.Ok? <==> reply.Ok?
    ensures r.result.Ok? ==> r.result.value == MessageReceipt([msgSeq], [r.calls[1].ran], receiptTime)
    ensures reply.Err? ==> r.result == Err(reply.error)
  {
    var ran := Nonce(random);
    var calls := [RegisterReceiptWaiter(ran), SendMessagePacket(routingHead, elems, ptt, msgSeq, ran, time)];
    match reply
    case Err(e) => Run(Err(e), calls)
    case Ok(_) => Run(Ok(MessageReceipt([msgSeq], [ran], receiptTime)), calls)
  }
}
