/** Asynchronous event requests: the host parks commands, events complete them
    (section 5.2 of NVM Express 1.4). */
module AsyncEvents {
  import opened NvmeTypes

  const MAX_AER_COMMANDS: nat := 4

  datatype RequestStatus = Parked | LimitExceeded

  datatype EventStatus = Posted | NoPending | PostFailed

  /** A completed request: its CID and the event it reports. */
  datatype Report = Report(cid: u16, dw0: u32)

  /** (type & 7) | (info << 8) | (logPage << 16) */
  function EventWord(kind: u8, info: u8, logPage: u8): (r: u32)
  {
    kind % 8 + 0x100 * info + 0x1_0000 * logPage
  }

  /** The host reads the three fields back; only three bits of the type are kept. */
  lemma {:induction false} EventWordReads(kind: u8, info: u8, logPage: u8)
    ensures var w := EventWord(kind, info, logPage);
            w % 8 == kind % 8 && (w / 0x100) % 0x100 == info && (w / 0x1_0000) % 0x100 == logPage
  {
    var w := EventWord(kind, info, logPage);
    assert w / 0x100 == info + 0x100 * logPage;
    assert w / 0x1_0000 == logPage;
  }

  /** Requests not yet completed, oldest first, with the history: every request accepted, the completions
      posted, and how many requests were taken off the list by an event whose post failed. */
  datatype Store = Store(pending: seq<u16>, accepted: seq<u16>, completed: seq<Report>, lost: nat)

  const EMPTY := Store([], [], [], 0)

  /** `ready` says whether the admin completion queue takes the completion. */
  datatype Event = Request(cid: u16) | Occurs(kind: u8, info: u8, logPage: u8, ready: bool)

  function Happens(s: Store, ev: Event): Store
  {
    match ev
    case Request(cid) =>
      if |s.pending| >= MAX_AER_COMMANDS then s
      else s.(pending := s.pending + [cid], accepted := s.accepted + [cid])
    case Occurs(kind, info, logPage, ready) =>
      if s.pending == [] then s
      else if ready then
        s.(pending := s.pending[1..], completed := s.completed + [Report(s.pending[0], EventWord(kind, info, logPage))])
      else s.(pending := s.pending[1..], lost := s.lost + 1)
  }

  function RunAll(s: Store, evs: seq<Event>): Store
  {
    if evs == [] then s else Happens(RunAll(s, evs[..|evs| - 1]), evs[|evs| - 1])
  }

  function Cids(rs: seq<Report>): (cs: seq<u16>)
    ensures |cs| == |rs|
  {
    seq(|rs|, i requires 0 <= i < |rs| => rs[i].cid)
  }

  ghost predicate Balanced(s: Store)
  {
    && |s.pending| <= MAX_AER_COMMANDS
    && |s.accepted| == |s.completed| + s.lost + |s.pending|
    && s.accepted[|s.completed| + s.lost..] == s.pending
    && (s.lost == 0 ==> s.accepted == Cids(s.completed) + s.pending)
  }

  lemma {:induction false} ReportKeepsBalance(s: Store, ev: Event)
    requires Balanced(s) && ev.Occurs? && s.pending != []
    ensures Balanced(Happens(s, ev))
  {
    var t := Happens(s, ev);
    assert t.accepted[|t.completed| + t.lost..] == s.accepted[|s.completed| + s.lost..][1..];
    if ev.ready {
      assert Cids(t.completed) == Cids(s.completed) + [s.pending[0]];
      assert s.pending == [s.pending[0]] + s.pending[1..];
    }
  }

  lemma {:induction false} EventKeepsBalance(s: Store, ev: Event)
    requires Balanced(s)
    ensures Balanced(Happens(s, ev))
  {
    if ev.Occurs? && s.pending != [] {
      ReportKeepsBalance(s, ev);
    }
  }

  /** Over any run at most four requests are pending, and they are the most recent ones in order. The
      requests accepted are exactly those completed, in order, followed by those pending, if and only
      if no event met a completion queue that refused its post. */
  lemma {:induction false} RunIsFifo(evs: seq<Event>)
    ensures var s := RunAll(EMPTY, evs);
            && |s.pending| <= MAX_AER_COMMANDS
            && |s.accepted| == |s.completed| + s.lost + |s.pending|
            && s.accepted[|s.completed| + s.lost..] == s.pending
            && (s.accepted == Cids(s.completed) + s.pending <==> s.lost == 0)
  {
    RunIsBalanced(evs);
  }

  lemma {:induction false} RunIsBalanced(evs: seq<Event>)
    ensures Balanced(RunAll(EMPTY, evs))
    decreases |evs|
  {
    if evs != [] {
      RunIsBalanced(evs[..|evs| - 1]);
      EventKeepsBalance(RunAll(EMPTY, evs[..|evs| - 1]), evs[|evs| - 1]);
    }
  }

  lemma {:induction false} NothingLostWhenReady(evs: seq<Event>)
    requires forall i :: 0 <= i < |evs| && evs[i].Occurs? ==> evs[i].ready
    ensures RunAll(EMPTY, evs).lost == 0
    decreases |evs|
  {
    if evs != [] {
      NothingLostWhenReady(evs[..|evs| - 1]);
    }
  }

  class AerStore {
    const aerCids: array<u16>
    var aerCount: u16
    ghost var store: Store

    constructor ()
      ensures Valid() && store == EMPTY && fresh(aerCids)
    {
      aerCids := new u16[MAX_AER_COMMANDS](_ => 0);
      aerCount := 0;
      store := EMPTY;
    }

    ghost predicate Valid()
      reads this, aerCids
    {
      aerCids.Length == MAX_AER_COMMANDS && aerCount <= MAX_AER_COMMANDS && store.pending == aerCids[..aerCount]
    }

    method HandleAsyncEventRequest(cid: u16) returns (status: RequestStatus)
      requires Valid()
      modifies this, aerCids
      ensures Valid() && store == Happens(old(store), Request(cid))
      ensures status.LimitExceeded? <==> |old(store.pending)| >= 4
      ensures status.Parked? ==>
                && store.pending == old(store.pending) + [cid] && store.accepted == old(store.accepted) + [cid]
                && store.completed == old(store.completed) && store.lost == old(store.lost)
      ensures status.LimitExceeded? ==> store == old(store)
    {
      if aerCount >= MAX_AER_COMMANDS {
        return LimitExceeded;
      }
      aerCids[aerCount] := cid;
      aerCount := aerCount + 1;
      store := Happens(store, Request(cid));
      return Parked;
    }

    /** The oldest request is taken off before the post is tried. */
    method CompleteAer(kind: u8, info: u8, logPage: u8, ready: bool) returns (status: EventStatus, cid: u16, dw0: u32)
      requires Valid()
      modifies this, aerCids
      ensures Valid() && store == Happens(old(store), Occurs(kind, info, logPage, ready))
      ensures status == if old(store.pending) == [] then NoPending else if ready then Posted else PostFailed
      ensures status.Posted? ==> store.completed == old(store.completed) + [Report(cid, dw0)]
      ensures !status.Posted? ==> store.completed == old(store.completed)
      ensures !status.NoPending? ==>
                && old(store.pending) == [cid] + store.pending
                && dw0 % 8 == kind % 8 && (dw0 / 0x100) % 0x100 == info && (dw0 / 0x1_0000) % 0x100 == logPage
      ensures status.NoPending? ==> store == old(store)
    {
      cid, dw0 := 0, 0;
      if aerCount == 0 {
        return NoPending, cid, dw0;
      }
      cid := aerCids[0];
      var i := 0;
      while i < aerCount - 1
        invariant 0 <= i <= aerCount - 1 && aerCount == old(aerCount) && store == old(store)
        invariant forall k :: 0 <= k < i ==> aerCids[k] == old(aerCids[k + 1])
        invariant forall k :: i <= k < aerCids.Length ==> aerCids[k] == old(aerCids[k])
      {
        aerCids[i] := aerCids[i + 1];
        i := i + 1;
      }
      aerCount := aerCount - 1;
      EventWordReads(kind, info, logPage);
      dw0 := EventWord(kind, info, logPage);
      store := Happens(store, Occurs(kind, info, logPage, ready));
      status := if ready then Posted else PostFailed;
    }
  }
}
