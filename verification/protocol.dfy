/** The collaborator interface of the client session API: the error type, the
    requests the session hands to the engine, the transport and the highway
    channel, and the `Run` record pairing a call's result with the requests it made. */
module Protocol {
  import opened Wrappers
  import opened Bytes

  type u16 = x: int | 0 <= x < 0x1_0000
  type u32 = x: int | 0 <= x < 0x1_0000_0000

  /** `RQError`, reduced to the shapes this core raises. `OtherCode` is an `Other`
      whose message is `prefix` followed by the decimal form of `code`; `Upstream`
      is any error a collaborator (transport, packet decoding) reports. */
  datatype RQError =
    | Other(msg: string)
    | OtherCode(prefix: string, code: int)
    | EmptyField(field: string)
    | Upstream(reason: nat)

  type RQResult<T> = Result<T, RQError>

  /** The custom part of an online status. */
  datatype CustomStatus = CustomStatus(faceIndex: nat, wording: string)

  /** `Status`: the online status, its extension and an optional custom status. */
  datatype Status = Status(onlineStatus: int, extOnlineStatus: int, customStatus: Option<CustomStatus>)

  /** `pb::MessageItem`, the acknowledgement of one synced message. */
  datatype MessageItem = MessageItem(fromUin: int, toUin: int, msgType: int, msgSeq: int, msgUid: int)

  /** `RQAddr`: an IPv4 address as a 32-bit word and a 16-bit port. */
  datatype Addr = Addr(ip: u32, port: u16)

  /** The body `build_long_req` produces for a highway upload. */
  datatype LongReq = LongReq(dstUin: int, data: bytes, ukey: bytes)

  /** `BdhInput`: one highway transfer. */
  datatype BdhInput = BdhInput(commandId: int, body: LongReq, ticket: bytes, chunkSize: int)

  /** Requests made to collaborators, in the order the session makes them. */
  datatype Request =
    | SetOnlineStatus(onlineStatus: int, extOnlineStatus: int, custom: Option<CustomStatus>)
    | TranslateRequest(srcLanguage: string, dstLanguage: string, texts: seq<string>)
    | GetMessage(syncFlag: int, time: int)
    | DeleteMessage(items: seq<MessageItem>)
    | MultiMsgApplyUp(dataLen: int, md5: bytes, busiType: int, dstUin: int)
    | HighwayUpload(addr: Addr, input: BdhInput)
    | MultiMsgApplyDown(resId: string)
    | RegisterReceiptWaiter(nonce: int)
    | SendMessagePacket(routingHead: bytes, elems: bytes, ptt: Option<bytes>, msgSeq: int, ran: int, time: int)

  /** The outcome of one session call: its result and the requests it made. */
  datatype Run<T> = Run(result: RQResult<T>, calls: seq<Request>)

  /** Rust's `as u16` on a 32-bit value: keeps the low 16 bits. */
  function AsU16(x: u32): (r: u16)
    ensures x < 0x1_0000 ==> r == x
    ensures (r - x) % 0x1_0000 == 0
  {
    x % 0x1_0000
  }

  /** Rust's `as i32` on a 32-bit value: two's-complement reinterpretation. */
  function AsI32(x: u32): (r: int)
    ensures -0x8000_0000 <= r < 0x8000_0000
    ensures (r - x) % 0x1_0000_0000 == 0
    ensures r >= 0 <==> x < 0x8000_0000
  {
    if x < 0x8000_0000 then x else x - 0x1_0000_0000
  }
}
