/** `sync_all_message`: the incremental message-sync loop. Each page is requested
    with the flag the previous page returned, acknowledged through `delete_message`,
    and only then delivered; the two sync cursors ("cookies") are advanced according
    to the page's response type. The sequence of page outcomes stands for what the
    transport and the server answer, one entry per loop iteration. */
module MessageSync {
  import opened Wrappers
  import opened Protocol
  import opened Bytes

  const SyncStart: int := 0
  const SyncContinue: int := 1
  const SyncStop: int := 2

  /** The message head fields the acknowledgement reads (prost getters default to 0). */
  datatype MsgHead = MsgHead(fromUin: Option<int>, toUin: Option<int>, msgType: Option<int>,
                             msgSeq: Option<int>, msgUid: Option<int>)

  /** `pb::msg::Message`: an optional head and the rest of the message. */
  datatype Message = Message(head: Option<MsgHead>, body: bytes)

  /** One decoded `MessageSyncResponse`. */
  datatype SyncPage = SyncPage(msgs: seq<Message>, msgRspType: int, syncCookie: Option<bytes>,
                               pubAccountCookie: Option<bytes>, syncFlag: int)

  /** What one loop iteration meets: the clock reading for the request, the
      `sync_message` outcome and the outcome of acknowledging that page. */
  datatype PageOutcome = PageOutcome(time: int, sync: RQResult<SyncPage>, ack: RQResult<()>)

  /** The session's two sync cursors. */
  datatype Cookies = Cookies(sync: bytes, pubAccount: bytes)

  /** Why the loop ended. `Panicked`: a message without a head reached the
      `unwrap` that builds its acknowledgement. `ScriptExhausted`: the loop asked
      for more pages than the given outcomes describe. */
  datatype SyncEnd = ReachedStop | SyncFailed | AckFailed | Panicked | ScriptExhausted

  /** The loop's outcome: the messages it returns, the cursors it leaves, the
      requests it made and why it ended. The call returns `Ok(msgs)` in every case
      but `Panicked`. */
  datatype SyncRun = SyncRun(msgs: seq<Message>, cookies: Cookies, calls: seq<Request>, end: SyncEnd)

  // ---------------------------------------------------------------------------
  // Acknowledgement items
  // ---------------------------------------------------------------------------

  function ItemOf(h: MsgHead): MessageItem {
    MessageItem(h.fromUin.GetOr(0), h.toUin.GetOr(0), h.msgType.GetOr(0), h.msgSeq.GetOr(0), h.msgUid.GetOr(0))
  }

  /** The `delete_message` items of a page, one per message in order; `None` when a
      message has no head (where ricq's `unwrap` panics). */
  function AckItems(msgs: seq<Message>): (r: Option<seq<MessageItem>>)
    ensures r.None? <==> exists i :: 0 <= i < |msgs| && msgs[i].head.None?
    ensures r.Some? ==> |r.value| == |msgs|
    ensures r.Some? ==> forall i :: 0 <= i < |msgs| ==> r.value[i] == ItemOf(msgs[i].head.value)
  {
    if |msgs| == 0 then Some([])
    else if msgs[0].head.None? then None
    else
      match AckItems(msgs[1..])
      case None => None
      case Some(rest) => Some([ItemOf(msgs[0].head.value)] + rest)
  }

  // ---------------------------------------------------------------------------
  // Cookie update by response type
  // ---------------------------------------------------------------------------

  /** The cookie update for response type `rspType`: type 0 may set both cursors,
      type 1 only the sync cursor, type 2 only the public-account cursor, any other
      type neither; a cursor is only overwritten by a cookie the page carries. */
  function UpdateCookies(c: Cookies, rspType: int, syncCookie: Option<bytes>, pubCookie: Option<bytes>): (r: Cookies)
    ensures r.sync == if (rspType == 0 || rspType == 1) && syncCookie.Some? then syncCookie.value else c.sync
    ensures r.pubAccount == if (rspType == 0 || rspType == 2) && pubCookie.Some? then pubCookie.value else c.pubAccount
  {
    match rspType
    case 0 =>
      var c1 := if syncCookie.Some? then c.(sync := syncCookie.value) else c;
      if pubCookie.Some? then c1.(pubAccount := pubCookie.value) else c1
    case 1 =>
      if syncCookie.Some? then c.(sync := syncCookie.value) else c
    case 2 =>
      if pubCookie.Some? then c.(pubAccount := pubCookie.value) else c
    case _ => c
  }

  /** Applying the same page twice leaves the cursors as applying it once. */
  lemma UpdateCookiesIdempotent(c: Cookies, t: int, s: Option<bytes>, p: Option<bytes>)
    ensures UpdateCookies(UpdateCookies(c, t, s, p), t, s, p) == UpdateCookies(c, t, s, p)
  {
  }

  /** A full update (type 0) is a sync-cursor update (type 1) followed by a
      public-account update (type 2), in either order. */
  lemma FullUpdateIsBothPartial(c: Cookies, s: Option<bytes>, p: Option<bytes>)
    ensures UpdateCookies(c, 0, s, p) == UpdateCookies(UpdateCookies(c, 1, s, p), 2, s, p)
    ensures UpdateCookies(c, 0, s, p) == UpdateCookies(UpdateCookies(c, 2, s, p), 1, s, p)
  {
  }

  /** A page carrying no cookies, or of an unknown type, changes nothing. */
  lemma NoCookieNoChange(c: Cookies, t: int, s: Option<bytes>, p: Option<bytes>)
    ensures UpdateCookies(c, t, None, None) == c
    ensures !(t in {0, 1, 2}) ==> UpdateCookies(c, t, s, p) == c
  {
  }

  function ApplyPage(c: Cookies, p: SyncPage): Cookies {
    UpdateCookies(c, p.msgRspType, p.syncCookie, p.pubAccountCookie)
  }

  // ---------------------------------------------------------------------------
  // The loop
  // ---------------------------------------------------------------------------

  /** The loop from the iteration that sends `flag`, with the outcomes still ahead. */
  function SyncLoop(flag: int, pages: seq<PageOutcome>, c: Cookies): (r: SyncRun)
    ensures |pages| == 0 <==> r.calls == []
    ensures |pages| != 0 ==> r.calls[0] == GetMessage(flag, pages[0].time)
    decreases |pages|
  {
    if |pages| == 0 then SyncRun([], c, [], ScriptExhausted)
    else
      var get := GetMessage(flag, pages[0].time);
      match pages[0].sync
      case Err(_) => SyncRun([], c, [get], SyncFailed)
      case Ok(page) =>
        match AckItems(page.msgs)
        case None => SyncRun([], c, [get], Panicked)
        case Some(items) =>
          if pages[0].ack.Err? then SyncRun([], c, [get, DeleteMessage(items)], AckFailed)
          else
            var c' := ApplyPage(c, page);
            if page.syncFlag == SyncStop then SyncRun(page.msgs, c', [get, DeleteMessage(items)], ReachedStop)
            else
              var rest := SyncLoop(page.syncFlag, pages[1..], c');
              SyncRun(page.msgs + rest.msgs, rest.cookies, [get, DeleteMessage(items)] + rest.calls, rest.end)
  }

  /** `sync_all_message`: the loop started with the start flag. It returns the
      messages of the delivered pages (see `Delivered`) in order, leaves the cursors
      as those pages set them, and makes its first request with the start flag. */
  function SyncAllMessage(pages: seq<PageOutcome>, c: Cookies): (r: SyncRun)
    ensures forall i :: 0 <= i < Delivered(pages) ==> pages[i].sync.Ok?
    ensures r.msgs == AllMsgs(pages[..Delivered(pages)])
    ensures r.cookies == FoldCookies(c, pages[..Delivered(pages)])
    ensures |pages| != 0 ==> r.calls != [] && r.calls[0] == GetMessage(SyncStart, pages[0].time)
    ensures forall i :: 0 <= i < Requested(pages) - 1 ==> pages[i].sync.Ok?
    ensures r.calls == CallsFor(SyncStart, pages, Requested(pages))
  {
    SyncLoopDelivers(SyncStart, pages, c);
    SyncLoopCalls(SyncStart, pages, c);
    SyncLoop(SyncStart, pages, c)
  }

  /** One iteration of `SyncLoop`, case by case. */
  lemma SyncLoopStep(flag: int, pages: seq<PageOutcome>, c: Cookies)
    requires |pages| != 0
    ensures var r := SyncLoop(flag, pages, c);
      !Accepted(pages[0]) ==> r.msgs == [] && r.cookies == c
    ensures pages[0].sync.Err? ==> SyncLoop(flag, pages, c).end == SyncFailed
    ensures pages[0].sync.Ok? && AckItems(pages[0].sync.value.msgs).None? ==>
      SyncLoop(flag, pages, c).end == Panicked
    ensures pages[0].sync.Ok? && AckItems(pages[0].sync.value.msgs).Some? && pages[0].ack.Err? ==>
      SyncLoop(flag, pages, c).end == AckFailed
    ensures AcceptedStop(pages[0]) ==>
      var r := SyncLoop(flag, pages, c);
      var page := pages[0].sync.value;
      r.msgs == page.msgs && r.cookies == ApplyPage(c, page) && r.end == ReachedStop
    ensures Accepted(pages[0]) && !AcceptedStop(pages[0]) ==>
      var r := SyncLoop(flag, pages, c);
      var page := pages[0].sync.value;
      var rest := SyncLoop(page.syncFlag, pages[1..], ApplyPage(c, page));
      r.msgs == page.msgs + rest.msgs && r.cookies == rest.cookies && r.end == rest.end
  {
  }

  /** Resuming the loop at page `i` with `flag`, cursors `c` and accumulator `msgs`
      finishes as `whole` does. */
  ghost predicate Resumes(whole: SyncRun, pages: seq<PageOutcome>, i: nat, flag: int, c: Cookies, msgs: seq<Message>) {
    i <= |pages|
    && var r := SyncLoop(flag, pages[i..], c);
    msgs + r.msgs == whole.msgs && r.cookies == whole.cookies && r.end == whole.end
  }

  /** An accepted page that does not say stop moves the resumption point one page on. */
  lemma ResumesStep(whole: SyncRun, pages: seq<PageOutcome>, i: nat, flag: int, c: Cookies, msgs: seq<Message>)
    requires Resumes(whole, pages, i, flag, c, msgs) && i < |pages|
    requires Accepted(pages[i]) && !AcceptedStop(pages[i])
    ensures var page := pages[i].sync.value;
      Resumes(whole, pages, i + 1, page.syncFlag, ApplyPage(c, page), msgs + page.msgs)
  {
    assert pages[i..][0] == pages[i] && pages[i..][1..] == pages[i + 1..];
    SyncLoopStep(flag, pages[i..], c);
  }

  /** Where the loop leaves, the accumulator and cursors are the final ones. */
  lemma ResumesEnd(whole: SyncRun, pages: seq<PageOutcome>, i: nat, flag: int, c: Cookies, msgs: seq<Message>)
    requires Resumes(whole, pages, i, flag, c, msgs)
    ensures i == |pages| ==> msgs == whole.msgs && c == whole.cookies && whole.end == ScriptExhausted
    ensures i < |pages| && !Accepted(pages[i]) ==> msgs == whole.msgs && c == whole.cookies
    ensures i < |pages| && pages[i].sync.Err? ==> whole.end == SyncFailed
    ensures i < |pages| && pages[i].sync.Ok? && AckItems(pages[i].sync.value.msgs).None? ==> whole.end == Panicked
    ensures i < |pages| && pages[i].sync.Ok? && AckItems(pages[i].sync.value.msgs).Some? && pages[i].ack.Err? ==>
      whole.end == AckFailed
    ensures i < |pages| && AcceptedStop(pages[i]) ==>
      var page := pages[i].sync.value;
      msgs + page.msgs == whole.msgs && ApplyPage(c, page) == whole.cookies && whole.end == ReachedStop
  {
    if i < |pages| {
      assert pages[i..][0] == pages[i];
      SyncLoopStep(flag, pages[i..], c);
    }
  }

  /** The loop as ricq writes it: a mutable flag, accumulator and cursors,
      leaving the loop on each failure or on the stop flag. It computes the same
      messages, cursors and end as `SyncAllMessage`. */
  method SyncAllMessageLoop(pages: seq<PageOutcome>, c0: Cookies) returns (msgs: seq<Message>, cookies: Cookies, end: SyncEnd)
    ensures msgs == SyncAllMessage(pages, c0).msgs
    ensures cookies == SyncAllMessage(pages, c0).cookies
    ensures end == SyncAllMessage(pages, c0).end
  {
    ghost var whole := SyncLoop(SyncStart, pages, c0);
    var flag := SyncStart;
    var i := 0;
    msgs := [];
    cookies := c0;
    assert pages[0..] == pages;
    while true
      invariant Resumes(whole, pages, i, flag, cookies, msgs)
      decreases |pages| - i
    {
      ResumesEnd(whole, pages, i, flag, cookies, msgs);
      if i == |pages| {
        end := ScriptExhausted;
        return;
      }
      var outcome := pages[i];
      if outcome.sync.Err? {
        end := SyncFailed;
        return;
      }
      var page := outcome.sync.value;
      if AckItems(page.msgs).None? {
        end := Panicked;
        return;
      }
      if outcome.ack.Err? {
        end := AckFailed;
        return;
      }
      if page.syncFlag == SyncStop {
        cookies := ApplyPage(cookies, page);
        msgs := msgs + page.msgs;
        end := ReachedStop;
        return;
      }
      ResumesStep(whole, pages, i, flag, cookies, msgs);
      cookies := ApplyPage(cookies, page);
      msgs := msgs + page.msgs;
      flag := page.syncFlag;
      i := i + 1;
    }
  }

  // ---------------------------------------------------------------------------
  // Reference description of what the loop delivers
  // ---------------------------------------------------------------------------

  /** The page was fetched, every message had a head, and the acknowledgement succeeded. */
  predicate Accepted(o: PageOutcome) {
    o.sync.Ok? && AckItems(o.sync.value.msgs).Some? && o.ack.Ok?
  }

  /** A page that was accepted and told the loop to stop. */
  predicate AcceptedStop(o: PageOutcome) {
    Accepted(o) && o.sync.value.syncFlag == SyncStop
  }

  /** Number of leading pages delivered: accepted pages up to and including the
      first that says stop. */
  function Delivered(pages: seq<PageOutcome>): (n: nat)
    ensures n <= |pages|
  {
    if |pages| == 0 || !Accepted(pages[0]) then 0
    else if pages[0].sync.value.syncFlag == SyncStop then 1
    else 1 + Delivered(pages[1..])
  }

  /** The delivered pages, described without the loop: all accepted, none but the
      last says stop, and the first page after them (if any is reached) was not
      accepted. */
  lemma {:induction false} DeliveredIsAcceptedPrefix(pages: seq<PageOutcome>)
    ensures forall i :: 0 <= i < Delivered(pages) ==> Accepted(pages[i])
    ensures forall i :: 0 <= i < Delivered(pages) - 1 ==> !AcceptedStop(pages[i])
    ensures Delivered(pages) < |pages| ==>
      !Accepted(pages[Delivered(pages)]) || (Delivered(pages) > 0 && AcceptedStop(pages[Delivered(pages) - 1]))
  {
    if |pages| != 0 && Accepted(pages[0]) && pages[0].sync.value.syncFlag != SyncStop {
      DeliveredIsAcceptedPrefix(pages[1..]);
      var n := Delivered(pages);
      assert n == 1 + Delivered(pages[1..]);
      forall i | 1 <= i < n
        ensures Accepted(pages[i])
      {
        assert pages[i] == pages[1..][i - 1];
      }
      forall i | 1 <= i < n - 1
        ensures !AcceptedStop(pages[i])
      {
        assert pages[i] == pages[1..][i - 1];
      }
      if n < |pages| {
        assert pages[n] == pages[1..][n - 1];
        if n > 1 {
          assert pages[n - 1] == pages[1..][n - 2];
        }
      }
    }
  }

  /** All messages of the given pages, in page order. */
  function AllMsgs(pages: seq<PageOutcome>): seq<Message>
    requires forall i :: 0 <= i < |pages| ==> pages[i].sync.Ok?
  {
    if |pages| == 0 then [] else pages[0].sync.value.msgs + AllMsgs(pages[1..])
  }

  /** The cursors after applying the given pages in order. */
  function FoldCookies(c: Cookies, pages: seq<PageOutcome>): Cookies
    requires forall i :: 0 <= i < |pages| ==> pages[i].sync.Ok?
    decreases |pages|
  {
    if |pages| == 0 then c else FoldCookies(ApplyPage(c, pages[0].sync.value), pages[1..])
  }

  /** The loop returns exactly the messages of the delivered pages, in order, and
      leaves the cursors as those pages set them: a failed fetch or acknowledgement
      truncates the result, it never adds the failing page. */
  lemma {:induction false} SyncLoopDelivers(flag: int, pages: seq<PageOutcome>, c: Cookies)
    ensures forall i :: 0 <= i < Delivered(pages) ==> pages[i].sync.Ok?
    ensures SyncLoop(flag, pages, c).msgs == AllMsgs(pages[..Delivered(pages)])
    ensures SyncLoop(flag, pages, c).cookies == FoldCookies(c, pages[..Delivered(pages)])
    decreases |pages|
  {
    DeliveredIsAcceptedPrefix(pages);
    var n := Delivered(pages);
    if |pages| != 0 && Accepted(pages[0]) {
      var page := pages[0].sync.value;
      var c' := ApplyPage(c, page);
      assert pages[..n][1..] == pages[1..][..n - 1];
      if page.syncFlag != SyncStop {
        SyncLoopDelivers(page.syncFlag, pages[1..], c');
      }
    }
  }

  /** How the loop ended, in terms of the first page after the delivered ones. */
  lemma {:induction false} SyncLoopEnd(flag: int, pages: seq<PageOutcome>, c: Cookies)
    ensures var r := SyncLoop(flag, pages, c); var n := Delivered(pages);
      && (r.end == ReachedStop <==> n > 0 && AcceptedStop(pages[n - 1]))
      && (r.end == ScriptExhausted <==> n == |pages| && !(n > 0 && AcceptedStop(pages[n - 1])))
      && (r.end == SyncFailed <==> n < |pages| && !(n > 0 && AcceptedStop(pages[n - 1])) && pages[n].sync.Err?)
      && (r.end == Panicked <==> n < |pages| && !(n > 0 && AcceptedStop(pages[n - 1]))
                                 && pages[n].sync.Ok? && AckItems(pages[n].sync.value.msgs).None?)
      && (r.end == AckFailed <==> n < |pages| && !(n > 0 && AcceptedStop(pages[n - 1]))
                                  && pages[n].sync.Ok? && AckItems(pages[n].sync.value.msgs).Some?
                                  && pages[n].ack.Err?)
    decreases |pages|
  {
    DeliveredIsAcceptedPrefix(pages);
    if |pages| != 0 && Accepted(pages[0]) && pages[0].sync.value.syncFlag != SyncStop {
      var page := pages[0].sync.value;
      SyncLoopEnd(page.syncFlag, pages[1..], ApplyPage(c, page));
      var n := Delivered(pages);
      if n < |pages| {
        assert pages[n] == pages[1..][n - 1];
      }
      if n > 1 {
        assert pages[n - 1] == pages[1..][n - 2];
      }
    }
  }

  /** The flags of the message requests, in order. */
  function RequestedFlags(calls: seq<Request>): seq<int> {
    if |calls| == 0 then []
    else if calls[0].GetMessage? then [calls[0].syncFlag] + RequestedFlags(calls[1..])
    else RequestedFlags(calls[1..])
  }

  lemma RequestedFlagsAppend(a: seq<Request>, b: seq<Request>)
    ensures RequestedFlags(a + b) == RequestedFlags(a) + RequestedFlags(b)
  {
    if |a| != 0 {
      assert (a + b)[0] == a[0];
      assert (a + b)[1..] == a[1..] + b;
      RequestedFlagsAppend(a[1..], b);
    } else {
      assert a + b == b;
    }
  }

  lemma RequestedFlagsPair(get: Request, del: Request)
    requires get.GetMessage? && !del.GetMessage?
    ensures RequestedFlags([get, del]) == [get.syncFlag]
  {
    var xs := [get, del];
    assert xs[0] == get && xs[1..] == [del];
    assert RequestedFlags(xs) == [get.syncFlag] + RequestedFlags([del]);
    assert [del][0] == del && [del][1..] == [];
    assert RequestedFlags([del]) == RequestedFlags([]);
  }

  /** Request `i` (from 1 on) carries the flag of page `i - 1`, and that flag is not stop. */
  ghost predicate FlagsFollowPages(fs: seq<int>, pages: seq<PageOutcome>) {
    && |fs| <= |pages|
    && forall i :: 1 <= i < |fs| ==> FlagFollowsPage(fs, pages, i)
  }

  ghost predicate FlagFollowsPage(fs: seq<int>, pages: seq<PageOutcome>, i: int)
    requires 1 <= i < |fs| <= |pages|
  {
    pages[i - 1].sync.Ok? && fs[i] == pages[i - 1].sync.value.syncFlag && fs[i] != SyncStop
  }

  /** Flag discipline: the first request carries the loop's starting flag, every
      later one the flag of the page before it, and no request follows a page that
      said stop (so the starting flag is the only one that can be the stop flag). */
  lemma {:induction false} SyncLoopFlags(flag: int, pages: seq<PageOutcome>, c: Cookies)
    ensures var fs := RequestedFlags(SyncLoop(flag, pages, c).calls);
      && FlagsFollowPages(fs, pages)
      && (|pages| != 0 ==> |fs| != 0 && fs[0] == flag)
    decreases |pages|
  {
    var r := SyncLoop(flag, pages, c);
    if |pages| != 0 {
      var get := GetMessage(flag, pages[0].time);
      if pages[0].sync.Ok? && AckItems(pages[0].sync.value.msgs).Some? && pages[0].ack.Ok? {
        var page := pages[0].sync.value;
        var items := AckItems(page.msgs).value;
        var head := [get, DeleteMessage(items)];
        RequestedFlagsPair(get, DeleteMessage(items));
        if page.syncFlag != SyncStop {
          var rest := SyncLoop(page.syncFlag, pages[1..], ApplyPage(c, page));
          SyncLoopFlags(page.syncFlag, pages[1..], ApplyPage(c, page));
          assert r.calls == head + rest.calls;
          RequestedFlagsAppend(head, rest.calls);
          var fs := RequestedFlags(r.calls);
          assert fs == [flag] + RequestedFlags(rest.calls);
          var rfs := RequestedFlags(rest.calls);
          assert |fs| <= |pages|;
          forall i | 1 <= i < |fs|
            ensures FlagFollowsPage(fs, pages, i)
          {
            assert fs[i] == rfs[i - 1];
            if i == 1 {
              assert |pages[1..]| != 0 && rfs[0] == page.syncFlag;
            } else {
              assert FlagFollowsPage(rfs, pages[1..], i - 1);
              assert pages[i - 1] == pages[1..][i - 2];
            }
          }
          assert FlagsFollowPages(fs, pages);
        } else {
          assert RequestedFlags(r.calls) == [flag];
        }
      } else if pages[0].sync.Ok? && AckItems(pages[0].sync.value.msgs).Some? {
        var items := AckItems(pages[0].sync.value.msgs).value;
        RequestedFlagsPair(get, DeleteMessage(items));
      } else {
        assert r.calls == [get];
      }
    }
  }

  // ---------------------------------------------------------------------------
  // Reference description of the requests the loop makes
  // ---------------------------------------------------------------------------

  /** Number of pages the loop requests: the delivered ones, plus the failing page
      after them unless the last delivered page said stop or no page is left. */
  function Requested(pages: seq<PageOutcome>): (n: nat)
    ensures Delivered(pages) <= n <= |pages|
  {
    var d := Delivered(pages);
    if d < |pages| && !(d > 0 && AcceptedStop(pages[d - 1])) then d + 1 else d
  }

  /** The flag of the request for page `i`: the starting flag for the first page,
      the previous page's flag after that. */
  function FlagAt(flag: int, pages: seq<PageOutcome>, i: nat): int
    requires i < |pages|
    requires i > 0 ==> pages[i - 1].sync.Ok?
  {
    if i == 0 then flag else pages[i - 1].sync.value.syncFlag
  }

  /** The requests made for one page: its fetch, then its acknowledgement when the
      page arrived and every message had a head. */
  function PageCalls(flag: int, o: PageOutcome): seq<Request> {
    [GetMessage(flag, o.time)]
    + if o.sync.Ok? && AckItems(o.sync.value.msgs).Some? then [DeleteMessage(AckItems(o.sync.value.msgs).value)] else []
  }

  /** The requests for the first `n` pages, page after page. */
  function CallsFor(flag: int, pages: seq<PageOutcome>, n: nat): seq<Request>
    requires n <= |pages|
    requires forall i :: 0 <= i < n - 1 ==> pages[i].sync.Ok?
  {
    if n == 0 then [] else CallsFor(flag, pages, n - 1) + PageCalls(FlagAt(flag, pages, n - 1), pages[n - 1])
  }

  /** `CallsFor` peeled from the front: the first page's requests, then the rest
      with the first page's flag. */
  lemma {:induction false} CallsForCons(flag: int, pages: seq<PageOutcome>, n: nat)
    requires 1 <= n <= |pages| && pages[0].sync.Ok?
    requires forall i :: 0 <= i < n - 1 ==> pages[i].sync.Ok?
    ensures CallsFor(flag, pages, n)
         == PageCalls(flag, pages[0]) + CallsFor(pages[0].sync.value.syncFlag, pages[1..], n - 1)
  {
    var f0 := pages[0].sync.value.syncFlag;
    if n > 1 {
      CallsForCons(flag, pages, n - 1);
      assert pages[1..][n - 2] == pages[n - 1];
      assert FlagAt(flag, pages, n - 1) == FlagAt(f0, pages[1..], n - 2) by {
        if n - 2 > 0 {
          assert pages[1..][n - 3] == pages[n - 2];
        }
      }
    }
  }

  /** An accepted page that does not say stop is requested, followed by the pages
      the rest of the loop requests. */
  lemma RequestedCons(pages: seq<PageOutcome>)
    requires |pages| != 0 && Accepted(pages[0]) && !AcceptedStop(pages[0])
    ensures Requested(pages) == 1 + Requested(pages[1..])
  {
    var rest := pages[1..];
    var d := Delivered(pages);
    assert d == 1 + Delivered(rest);
    if d < |pages| {
      assert pages[d] == rest[d - 1];
    }
    if d > 1 {
      assert pages[d - 1] == rest[d - 2];
    }
  }

  /** The requests of one iteration: the first page's, then (after an accepted page
      that does not say stop) those of the rest of the loop. */
  lemma SyncLoopCallsStep(flag: int, pages: seq<PageOutcome>, c: Cookies)
    requires |pages| != 0
    ensures !Accepted(pages[0]) || AcceptedStop(pages[0]) ==>
      SyncLoop(flag, pages, c).calls == PageCalls(flag, pages[0])
    ensures Accepted(pages[0]) && !AcceptedStop(pages[0]) ==>
      var page := pages[0].sync.value;
      SyncLoop(flag, pages, c).calls
        == PageCalls(flag, pages[0]) + SyncLoop(page.syncFlag, pages[1..], ApplyPage(c, page)).calls
  {
  }

  /** The loop makes exactly the requests of the pages it reaches, in order: for
      every delivered page its fetch and its acknowledgement, then for the failing
      page (if one is reached) its fetch and, only when its items could be built,
      its acknowledgement, and nothing after. No page is fetched twice. */
  lemma {:induction false} SyncLoopCalls(flag: int, pages: seq<PageOutcome>, c: Cookies)
    ensures forall i :: 0 <= i < Requested(pages) - 1 ==> pages[i].sync.Ok?
    ensures SyncLoop(flag, pages, c).calls == CallsFor(flag, pages, Requested(pages))
    decreases |pages|
  {
    if |pages| != 0 {
      SyncLoopCallsStep(flag, pages, c);
      if Accepted(pages[0]) && !AcceptedStop(pages[0]) {
        var page := pages[0].sync.value;
        SyncLoopCalls(page.syncFlag, pages[1..], ApplyPage(c, page));
        RequestedCons(pages);
        var n := Requested(pages);
        forall i | 0 <= i < n - 1
          ensures pages[i].sync.Ok?
        {
          if i > 0 {
            assert pages[i] == pages[1..][i - 1];
          }
        }
        CallsForCons(flag, pages, n);
      } else {
        assert Requested(pages) == 1;
      }
    }
  }

  /** A transport that serves two pages and then fails: the call still returns the
      two pages' messages, after three requests. */
  lemma PartialResultOnSyncFailure(m1: Message, m2: Message, c: Cookies, t: int, e: RQError)
    requires m1.head.Some? && m2.head.Some?
    ensures var pages := [
          PageOutcome(t, Ok(SyncPage([m1], 0, None, None, SyncContinue)), Ok(())),
          PageOutcome(t, Ok(SyncPage([m2], 0, None, None, SyncContinue)), Ok(())),
          PageOutcome(t, Err(e), Ok(()))];
      var r := SyncAllMessage(pages, c);
      r.msgs == [m1, m2] && r.end == SyncFailed && r.cookies == c
  {
    var p1 := PageOutcome(t, Ok(SyncPage([m1], 0, None, None, SyncContinue)), Ok(()));
    var p2 := PageOutcome(t, Ok(SyncPage([m2], 0, None, None, SyncContinue)), Ok(()));
    var p3 := PageOutcome(t, Err(e), Ok(()));
    assert [p1, p2, p3][1..] == [p2, p3];
    assert [p2, p3][1..] == [p3];
    var r3 := SyncLoop(SyncContinue, [p3], c);
    assert r3.msgs == [] && r3.end == SyncFailed && r3.cookies == c;
    var r2 := SyncLoop(SyncContinue, [p2, p3], c);
    assert r2.msgs == [m2] + r3.msgs;
    var r1 := SyncLoop(SyncStart, [p1, p2, p3], c);
    assert r1.msgs == [m1] + r2.msgs;
  }

  /** A page whose acknowledgement fails is not delivered, although it was fetched. */
  lemma AckFailureDropsPage(m1: Message, m2: Message, c: Cookies, t: int, e: RQError)
    requires m1.head.Some? && m2.head.Some?
    ensures var pages := [
          PageOutcome(t, Ok(SyncPage([m1], 1, None, None, SyncContinue)), Ok(())),
          PageOutcome(t, Ok(SyncPage([m2], 1, None, None, SyncStop)), Err(e))];
      var r := SyncAllMessage(pages, c);
      r.msgs == [m1] && r.end == AckFailed
  {
    var p1 := PageOutcome(t, Ok(SyncPage([m1], 1, None, None, SyncContinue)), Ok(()));
    var p2 := PageOutcome(t, Ok(SyncPage([m2], 1, None, None, SyncStop)), Err(e));
    assert [p1, p2][1..] == [p2];
    var r2 := SyncLoop(SyncContinue, [p2], c);
    assert AckItems([m2]).Some?;
    assert r2.msgs == [] && r2.end == AckFailed;
    var r1 := SyncLoop(SyncStart, [p1, p2], c);
    assert AckItems([m1]).Some?;
    assert r1.msgs == [m1] + r2.msgs;
  }
}
