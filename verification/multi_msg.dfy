/** Long and forwarded messages: the apply-up request and its long/forward
    discriminator, `upload_msgs` with its try-each-endpoint fallback, and the
    decision part of `download_msgs` (result check and download-address choice). */
module MultiMsg {
  import opened Wrappers
  import opened Protocol
  import opened Bytes

  // ---------------------------------------------------------------------------
  // multi_msg_apply_up
  // ---------------------------------------------------------------------------

  /** What is being uploaded: a long message or a forwarded-message bundle. */
  datatype UploadKind = LongMessage | ForwardMessage

  function KindOf(isLong: bool): UploadKind {
    if isLong then LongMessage else ForwardMessage
  }

  /** The wire encoding of the kind in the apply-up request. */
  function BusiType(k: UploadKind): int {
    match k
    case LongMessage => 1
    case ForwardMessage => 2
  }

  /** Reading the wire encoding back; every other value is no kind. */
  function KindOfBusiType(n: int): (r: Option<UploadKind>)
    ensures r.Some? <==> n == 1 || n == 2
  {
    if n == 1 then Some(LongMessage) else if n == 2 then Some(ForwardMessage) else None
  }

  /** The encoding is a bijection between the two kinds and the values 1 and 2. */
  lemma BusiTypeRoundTrip(k: UploadKind, n: int)
    ensures KindOfBusiType(BusiType(k)) == Some(k)
    ensures KindOfBusiType(n).Some? ==> BusiType(KindOfBusiType(n).value) == n
  {
  }

  /** The apply-up request of `multi_msg_apply_up`; `md5` is the digest of `data`,
      computed outside this model. The discriminator is 1 for a long message and 2
      otherwise. */
  function ApplyUpRequest(dstUin: int, data: bytes, md5: bytes, isLong: bool): (r: Request)
    ensures r.MultiMsgApplyUp? && r.dataLen == |data| && r.md5 == md5 && r.dstUin == dstUin
    ensures r.busiType == if isLong then 1 else 2
    ensures KindOfBusiType(r.busiType) == Some(KindOf(isLong))
  {
    MultiMsgApplyUp(|data|, md5, BusiType(KindOf(isLong)), dstUin)
  }

  // ---------------------------------------------------------------------------
  // upload_msgs
  // ---------------------------------------------------------------------------

  /** `MultiMsgApplyUpRsp`, reduced to the fields the upload reads (and `result`,
      which it does not check). */
  datatype ApplyUpRsp = ApplyUpRsp(result: int, resid: string, ukey: bytes, sig: bytes,
                                   upIps: seq<u32>, upPorts: seq<u32>)

  /** Rust's `a.into_iter().zip(b)`: pairs in order, as many as the shorter has. */
  function Zip<A, B>(a: seq<A>, b: seq<B>): (r: seq<(A, B)>)
    ensures |r| == if |a| <= |b| then |a| else |b|
    ensures forall i :: 0 <= i < |r| ==> r[i] == (a[i], b[i])
  {
    if |a| == 0 || |b| == 0 then [] else [(a[0], b[0])] + Zip(a[1..], b[1..])
  }

  /** The candidate endpoints: IPs and ports zipped, each port cut to 16 bits. */
  function Endpoints(ips: seq<u32>, ports: seq<u32>): (r: seq<Addr>)
    ensures |r| == if |ips| <= |ports| then |ips| else |ports|
    ensures forall i :: 0 <= i < |r| ==> r[i] == Addr(ips[i], AsU16(ports[i]))
  {
    var pairs := Zip(ips, ports);
    seq(|pairs|, i requires 0 <= i < |pairs| => Addr(pairs[i].0, AsU16(pairs[i].1)))
  }

  const UploadCommandId: int := 27
  const UploadChunkSize: int := 8192 * 8

  /** The first candidate at or after `i` whose transfer succeeds. */
  ghost predicate FirstSuccessFrom(succeeds: nat -> bool, i: nat, k: nat) {
    i <= k && succeeds(k) && forall j :: i <= j < k ==> !succeeds(j)
  }

  /** Trying candidates `i..` in order: one transfer per candidate until one succeeds.
      `succeeds(j)` is the outcome of the transfer to candidate `j`. Returns the
      transfers made and whether one succeeded. */
  function TryEndpoints(addrs: seq<Addr>, input: BdhInput, succeeds: nat -> bool, i: nat): (r: (seq<Request>, bool))
    requires i <= |addrs|
    ensures r.1 <==> exists j :: i <= j < |addrs| && succeeds(j)
    ensures i + |r.0| <= |addrs|
    ensures forall t :: 0 <= t < |r.0| ==> r.0[t] == HighwayUpload(addrs[i + t], input)
    ensures r.1 ==> |r.0| != 0 && FirstSuccessFrom(succeeds, i, i + |r.0| - 1)
    ensures !r.1 ==> i + |r.0| == |addrs|
    decreases |addrs| - i
  {
    if i == |addrs| then ([], false)
    else
      var call := HighwayUpload(addrs[i], input);
      if succeeds(i) then ([call], true)
      else
        var rest := TryEndpoints(addrs, input, succeeds, i + 1);
        ([call] + rest.0, rest.1)
  }

  const EmptySessionKey: RQError := EmptyField("highway_session_key is empty")
  const UploadFailed: RQError := Other("failed to upload long message")

  /** `upload_msgs`. `dstUin` is the group's uin, `data` the serialized messages and
      `md5` their digest (all computed outside this model); `applyUp` is the outcome
      of `multi_msg_apply_up`, `sessionKey` the highway session key and
      `succeeds(j)` the outcome of a transfer to candidate `j`. An empty key fails
      before any transfer; candidates are tried in order and the first success
      returns the resource id; when all fail the call fails. */
  function UploadMsgs(dstUin: int, data: bytes, md5: bytes, isLong: bool, applyUp: RQResult<ApplyUpRsp>,
                      sessionKey: bytes, succeeds: nat -> bool): (r: Run<string>)
    ensures |r.calls| != 0 && r.calls[0] == ApplyUpRequest(dstUin, data, md5, isLong)
    ensures applyUp.Err? ==> r.result == Err(applyUp.error) && |r.calls| == 1
    ensures applyUp.Ok? && |sessionKey| == 0 ==> r.result == Err(EmptySessionKey) && |r.calls| == 1
    ensures applyUp.Ok? && |sessionKey| != 0 ==>
      var rsp := applyUp.value;
      var addrs := Endpoints(rsp.upIps, rsp.upPorts);
      var input := BdhInput(UploadCommandId, LongReq(dstUin, data, rsp.ukey), rsp.sig, UploadChunkSize);
      && (r.result.Ok? <==> exists j :: 0 <= j < |addrs| && succeeds(j))
      && (r.result.Ok? ==> r.result.value == rsp.resid && |r.calls| >= 2 && FirstSuccessFrom(succeeds, 0, |r.calls| - 2))
      && (r.result.Err? ==> r.result.error == UploadFailed && |r.calls| == |addrs| + 1)
      && |r.calls| <= |addrs| + 1
      && forall t :: 1 <= t < |r.calls| ==> r.calls[t] == HighwayUpload(addrs[t - 1], input)
  {
    var apply := ApplyUpRequest(dstUin, data, md5, isLong);
    match applyUp
    case Err(e) => Run(Err(e), [apply])
    case Ok(rsp) =>
      if |sessionKey| == 0 then Run(Err(EmptySessionKey), [apply])
      else
        var addrs := Endpoints(rsp.upIps, rsp.upPorts);
        var input := BdhInput(UploadCommandId, LongReq(dstUin, data, rsp.ukey), rsp.sig, UploadChunkSize);
        var (transfers, ok) := TryEndpoints(addrs, input, succeeds, 0);
        var calls := [apply] + transfers;
        assert forall t :: 1 <= t < |calls| ==> calls[t] == transfers[t - 1];
        if ok then Run(Ok(rsp.resid), calls) else Run(Err(UploadFailed), calls)
  }

  /** Three candidates of which only the third accepts the transfer: the upload
      succeeds there after exactly three transfers, and the extra IP without a port
      is never tried. */
  lemma UploadFallsBackInOrder(resid: string, ukey: bytes, sig: bytes, key: bytes, data: bytes, md5: bytes)
    requires |key| != 0
    ensures var rsp := ApplyUpRsp(0, resid, ukey, sig, [1, 2, 3, 4], [80, 8080, 0x1_0050]);
      var r := UploadMsgs(10, data, md5, true, Ok(rsp), key, j => j >= 2);
      && r.result == Ok(resid)
      && |r.calls| == 4
      && r.calls[3].addr == Addr(3, 0x50)
  {
    var rsp := ApplyUpRsp(0, resid, ukey, sig, [1, 2, 3, 4], [80, 8080, 0x1_0050]);
    var r := UploadMsgs(10, data, md5, true, Ok(rsp), key, j => j >= 2);
    var addrs := Endpoints(rsp.upIps, rsp.upPorts);
    assert |addrs| == 3;
    assert FirstSuccessFrom(j => j >= 2, 0, |r.calls| - 2);
  }

  // ---------------------------------------------------------------------------
  // download_msgs
  // ---------------------------------------------------------------------------

  datatype ExternMsg = ExternMsg(channelType: int)

  /** `MultiMsgApplyDownRsp`, reduced to the fields the download reads. */
  datatype ApplyDownRsp = ApplyDownRsp(result: int, thumbDownPara: bytes, msgKey: bytes,
                                       downIps: seq<u32>, downPorts: seq<u32>,
                                       msgExternInfo: Option<ExternMsg>)

  /** Where the download is fetched from: the fixed HTTPS host, or a returned address. */
  datatype Prefix = FixedHost(host: string) | HttpAddr(addr: Addr)

  /** The retrieval URL: the prefix followed by the raw path the response gave. */
  datatype DownloadUrl = DownloadUrl(prefix: Prefix, path: bytes)

  /** The end of `download_msgs` as far as it is written: an error, or the URL and
      key it has prepared when it reaches its unfinished fetch step. */
  datatype DownloadOutcome = DownloadFailed(error: RQError) | Unfinished(url: DownloadUrl, encryptKey: bytes)

  const HtdataHost: string := "https://ssl.htdata.qq.com"
  const ApplyDownResultPrefix: string := "multi_msg_apply_down result "

  /** A `download_msgs` call: how far it got, and the requests it made. */
  datatype DownloadRun = DownloadRun(outcome: DownloadOutcome, calls: seq<Request>)

  /** `download_msgs` up to its unfinished part. `applyDown` is the outcome of
      `multi_msg_apply_down` for `resId`, the only request the call makes before its
      unfinished fetch. A non-zero result code fails; channel type 2 selects the
      fixed host; otherwise the LAST IP and the LAST port are taken (each list
      popped once, no fallback), and a missing one fails. */
  function DownloadMsgs(resId: string, applyDown: RQResult<ApplyDownRsp>): (run: DownloadRun)
    ensures run.calls == [MultiMsgApplyDown(resId)]
    ensures applyDown.Err? ==> run.outcome == DownloadFailed(applyDown.error)
    ensures applyDown.Ok? && applyDown.value.result != 0 ==>
      run.outcome == DownloadFailed(OtherCode(ApplyDownResultPrefix, applyDown.value.result))
    ensures run.outcome.Unfinished? ==>
      && applyDown.Ok? && applyDown.value.result == 0
      && run.outcome.url.path == applyDown.value.thumbDownPara
      && run.outcome.encryptKey == applyDown.value.msgKey
    ensures run.outcome.Unfinished? && run.outcome.url.prefix.FixedHost? ==>
      run.outcome.url.prefix.host == HtdataHost
    ensures run.outcome.Unfinished? && run.outcome.url.prefix.HttpAddr? ==>
      var rsp := applyDown.value;
      && |rsp.downIps| != 0 && |rsp.downPorts| != 0
      && run.outcome.url.prefix.addr == Addr(rsp.downIps[|rsp.downIps| - 1], AsU16(rsp.downPorts[|rsp.downPorts| - 1]))
  {
    var calls := [MultiMsgApplyDown(resId)];
    match applyDown
    case Err(e) => DownloadRun(DownloadFailed(e), calls)
    case Ok(rsp) =>
      if rsp.result != 0 then DownloadRun(DownloadFailed(OtherCode(ApplyDownResultPrefix, rsp.result)), calls)
      else if rsp.msgExternInfo.Some? && rsp.msgExternInfo.value.channelType == 2 then
        DownloadRun(Unfinished(DownloadUrl(FixedHost(HtdataHost), rsp.thumbDownPara), rsp.msgKey), calls)
      else if |rsp.downIps| == 0 then DownloadRun(DownloadFailed(EmptyField("down_ip")), calls)
      else if |rsp.downPorts| == 0 then DownloadRun(DownloadFailed(EmptyField("down_port")), calls)
      else
        var ip := rsp.downIps[|rsp.downIps| - 1];
        var port := rsp.downPorts[|rsp.downPorts| - 1];
        DownloadRun(Unfinished(DownloadUrl(HttpAddr(Addr(ip, AsU16(port))), rsp.thumbDownPara), rsp.msgKey), calls)
  }

  /** Which prefix is chosen, stated over the response alone: the fixed host exactly
      for channel type 2, an address exactly when the channel is not 2 and both lists
      are non-empty, and a missing-field error naming the IP list before the port list. */
  lemma DownloadPrefixChoice(resId: string, rsp: ApplyDownRsp)
    requires rsp.result == 0
    ensures var r := DownloadMsgs(resId, Ok(rsp)).outcome;
      var channel2 := rsp.msgExternInfo.Some? && rsp.msgExternInfo.value.channelType == 2;
      && (r.Unfinished? && r.url.prefix.FixedHost? <==> channel2)
      && (r.Unfinished? && r.url.prefix.HttpAddr? <==> !channel2 && |rsp.downIps| != 0 && |rsp.downPorts| != 0)
      && (r == DownloadFailed(EmptyField("down_ip")) <==> !channel2 && |rsp.downIps| == 0)
      && (r == DownloadFailed(EmptyField("down_port")) <==> !channel2 && |rsp.downIps| != 0 && |rsp.downPorts| == 0)
  {
  }

  /** Only the last IP and the last port matter: replacing every earlier entry of
      either list leaves the outcome unchanged. */
  lemma DownloadIgnoresEarlierCandidates(resId: string, rsp: ApplyDownRsp, ips: seq<u32>, ports: seq<u32>)
    requires |rsp.downIps| != 0 && |rsp.downPorts| != 0
    ensures DownloadMsgs(resId, Ok(rsp)) ==
      DownloadMsgs(resId, Ok(rsp.(downIps := ips + [rsp.downIps[|rsp.downIps| - 1]],
                                  downPorts := ports + [rsp.downPorts[|rsp.downPorts| - 1]])))
  {
  }
}
