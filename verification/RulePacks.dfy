/**
  The active / history / pin / feed record of `RulePackManager` in `supply_chain.py`.
  Signature checks, downloads and the clock are inputs of the operations.
 */
module RulePacks {
  import opened Prelude

  const HISTORY_LIMIT := 10
  const DAY := 24 * 60 * 60 * 1_000_000  // microseconds

  /** A verified pack as the state file names it: version and document digest. */
  datatype Entry = Entry(version: string, sha: string)

  datatype Url = Url(text: string, credentialFreeHttps: bool)

  /** Approval tokens are digests of distinct canonical documents. */
  datatype Token = InstallToken(version: string, sha: string) | FeedToken(url: Url)

  datatype PackState = PackState(
    active: Option<Entry>,
    history: seq<Entry>,
    pinned: Option<string>,
    feed: Option<Url>,
    feedApproval: Option<Token>,
    lastChecked: Option<int>)

  const EMPTY: PackState := PackState(None, [], None, None, None, None)

  function LastTen(h: seq<Entry>): seq<Entry> {
    if |h| <= HISTORY_LIMIT then h else h[|h| - HISTORY_LIMIT..]
  }

  function Without(h: seq<Entry>, e: Entry): seq<Entry> {
    if h == [] then []
    else Without(h[..|h| - 1], e) + (if h[|h| - 1] == e then [] else [h[|h| - 1]])
  }

  function Appended(h: seq<Entry>, previous: Option<Entry>, active: Entry): seq<Entry> {
    if previous.Some? && previous.value != active then h + [previous.value] else h
  }

  predicate PinAllows(s: PackState, e: Entry) { s.pinned == None || s.pinned == Some(e.version) }

  function Activate(s: PackState, e: Entry): (PackState, bool) {
    if !PinAllows(s, e) then (s, false)
    else (s.(active := Some(e), history := LastTen(Appended(Without(s.history, e), s.active, e))), true)
  }

  /** The record is rewritten before the restored pack is loaded; loading may then fail. */
  function Rollback(s: PackState): (PackState, bool) {
    if s.history == [] then (s, false)
    else
      var rest := s.history[..|s.history| - 1];
      (s.(active := Some(s.history[|s.history| - 1]),
          history := LastTen(if s.active.Some? then rest + [s.active.value] else rest)), true)
  }

  predicate IsAlphanumeric(c: char) { 'A' <= c <= 'Z' || 'a' <= c <= 'z' || '0' <= c <= '9' }

  predicate IsPackVersion(v: string) {
    1 <= |v| <= 128 && IsAlphanumeric(v[0])
    && forall i :: 0 <= i < |v| ==> IsAlphanumeric(v[i]) || v[i] in "_.+-"
  }

  function Pin(s: PackState, version: Option<string>): (PackState, bool) {
    if version.Some? && !IsPackVersion(version.value) then (s, false)
    else (s.(pinned := version), true)
  }

  function ConfigureFeed(s: PackState, url: Url, token: Token): (PackState, bool) {
    if !url.credentialFreeHttps || token != FeedToken(url) then (s, false)
    else (s.(feed := Some(url), feedApproval := Some(token), lastChecked := None), true)
  }

  function DisableFeed(s: PackState): PackState {
    s.(feed := None, feedApproval := None, lastChecked := None)
  }

  datatype Check = Disabled | ConsentInvalid | TooEarly | Checked(updated: bool)

  /** `fetched` is None when the download or its verification fails. */
  function AutoUpdate(s: PackState, now: int, fetched: Option<Entry>, activeLoads: bool): (PackState, Check) {
    if s.feed == None then (s, Disabled)
    else if !s.feed.value.credentialFreeHttps || s.feedApproval != Some(FeedToken(s.feed.value)) then
      (s, ConsentInvalid)
    else if s.lastChecked.Some? && now - s.lastChecked.value < DAY then (s, TooEarly)
    else
      var noted := s.(lastChecked := Some(now));
      if fetched == None || (s.active.Some? && !activeLoads) then (noted, Checked(false))
      else if s.active.Some? && s.active.value.sha == fetched.value.sha then (noted, Checked(false))
      else
        var (t, ok) := Activate(noted, fetched.value);
        (t, Checked(ok))
  }

  // ----- runs ---------------------------------------------------------------------------------------

  datatype Op =
    | InstallOp(entry: Entry, token: Token)
    | RollbackOp
    | PinOp(version: Option<string>)
    | ConfigureOp(url: Url, token: Token)
    | DisableOp
    | AutoOp(now: int, fetched: Option<Entry>, activeLoads: bool)

  function Apply(s: PackState, op: Op): PackState {
    match op
    case InstallOp(e, token) => if token == InstallToken(e.version, e.sha) then Activate(s, e).0 else s
    case RollbackOp => Rollback(s).0
    case PinOp(version) => Pin(s, version).0
    case ConfigureOp(url, token) => ConfigureFeed(s, url, token).0
    case DisableOp => DisableFeed(s)
    case AutoOp(now, fetched, activeLoads) => AutoUpdate(s, now, fetched, activeLoads).0
  }

  function RunAll(s: PackState, ops: seq<Op>): PackState {
    if ops == [] then s else Apply(RunAll(s, ops[..|ops| - 1]), ops[|ops| - 1])
  }

  /** Bounded, free of repetitions, without the active pack; and nothing to go back to before the first. */
  ghost predicate HistoryOk(s: PackState) {
    && |s.history| <= HISTORY_LIMIT
    && NoDuplicates(s.history)
    && (s.active.Some? ==> s.active.value !in s.history)
    && (s.active == None ==> s.history == [])
  }

  lemma {:induction false} WithoutMembers(h: seq<Entry>, e: Entry)
    ensures forall x :: x in Without(h, e) <==> x in h && x != e
    ensures NoDuplicates(h) ==> NoDuplicates(Without(h, e))
  {
    if h != [] {
      WithoutMembers(h[..|h| - 1], e);
      assert h == h[..|h| - 1] + [h[|h| - 1]];
      var front := Without(h[..|h| - 1], e);
      assert NoDuplicates(h) ==> h[|h| - 1] !in h[..|h| - 1];
      assert forall i :: 0 <= i < |front| ==> front[i] in front;
    }
  }

  lemma LastTenMembers(h: seq<Entry>)
    requires NoDuplicates(h)
    ensures NoDuplicates(LastTen(h)) && |LastTen(h)| <= HISTORY_LIMIT
    ensures forall x :: x in LastTen(h) ==> x in h
  {
  }

  lemma ActivateKeepsHistory(s: PackState, e: Entry)
    requires HistoryOk(s)
    ensures HistoryOk(Activate(s, e).0)
  {
    WithoutMembers(s.history, e);
    var h := Without(s.history, e);
    assert forall i :: 0 <= i < |h| ==> h[i] in h;
    LastTenMembers(Appended(h, s.active, e));
  }

  lemma RollbackKeepsHistory(s: PackState)
    requires HistoryOk(s)
    ensures HistoryOk(Rollback(s).0)
  {
    if s.history != [] {
      var rest := s.history[..|s.history| - 1];
      assert forall x :: x in rest ==> x in s.history;
      assert forall i :: 0 <= i < |rest| ==> rest[i] in rest;
      assert s.history[|s.history| - 1] !in rest;
      LastTenMembers(rest + [s.active.value]);
    }
  }

  /** After any sequence of operations the history is bounded, distinct and free of the active pack. */
  lemma {:induction false} RunsKeepHistory(ops: seq<Op>)
    ensures HistoryOk(RunAll(EMPTY, ops))
  {
    if ops != [] {
      var before, op := RunAll(EMPTY, ops[..|ops| - 1]), ops[|ops| - 1];
      RunsKeepHistory(ops[..|ops| - 1]);
      match op
      case InstallOp(e, _) => ActivateKeepsHistory(before, e);
      case RollbackOp => RollbackKeepsHistory(before);
      case AutoOp(now, fetched, _) =>
        if fetched.Some? { ActivateKeepsHistory(before.(lastChecked := Some(now)), fetched.value); }
      case _ =>
    }
  }

  /** Rolling back twice restores the whole record. */
  lemma TwoRollbacksRestore(ops: seq<Op>)
    requires RunAll(EMPTY, ops).history != []
    ensures var s := RunAll(EMPTY, ops);
            Rollback(s).1 && Rollback(Rollback(s).0).1 && Rollback(Rollback(s).0).0 == s
  {
    RunsKeepHistory(ops);
    RollbackIsUndone(RunAll(EMPTY, ops));
  }

  // ----- the pin ------------------------------------------------------------------------------------

  ghost predicate PinHolds(s: PackState) {
    s.active.Some? ==> PinAllows(s, s.active.value)
  }

  /** The operation goes around the pin: it restores or demands another version than the active one. */
  ghost predicate Evades(s: PackState, op: Op) {
    || (op == RollbackOp && s.history != [] && !PinAllows(s, s.history[|s.history| - 1]))
    || (op.PinOp? && Pin(s, op.version).1 && op.version.Some? && s.active.Some?
        && s.active.value.version != op.version.value)
  }

  /**
    Installations and automatic updates never violate the pin.  A rollback does so exactly when the
    restored pack has another version, and a pin exactly when the active pack has.
   */
  lemma PinBrokenExactly(s: PackState, op: Op)
    requires HistoryOk(s) && PinHolds(s)
    ensures PinHolds(Apply(s, op)) <==> !Evades(s, op)
  {
    match op
    case AutoOp(_, _, _) =>
    case InstallOp(_, _) =>
    case _ =>
  }

  /** So the pin is not an invariant: a rollback can activate another version than the pinned one. */
  lemma RollbackCanIgnoreThePin()
    ensures var one, two := Entry("1", "a"), Entry("2", "b");
            var ops := [InstallOp(one, InstallToken("1", "a")), InstallOp(two, InstallToken("2", "b")),
                        PinOp(Some("2")), RollbackOp];
            RunAll(EMPTY, ops).active == Some(one) && RunAll(EMPTY, ops).pinned == Some("2")
  {
    var one, two := Entry("1", "a"), Entry("2", "b");
    var i1, i2, p := InstallOp(one, InstallToken("1", "a")), InstallOp(two, InstallToken("2", "b")), PinOp(Some("2"));
    assert [i1][..0] == [] && [i1, i2][..1] == [i1] && [i1, i2, p][..2] == [i1, i2];
    assert [i1, i2, p, RollbackOp][..3] == [i1, i2, p];
    var s1 := Apply(EMPTY, i1);
    assert RunAll(EMPTY, [i1]) == s1 && s1 == EMPTY.(active := Some(one));
    var s2 := Apply(s1, i2);
    assert RunAll(EMPTY, [i1, i2]) == s2 && s2 == EMPTY.(active := Some(two), history := [one]);
    var s3 := Apply(s2, p);
    assert IsPackVersion("2") && RunAll(EMPTY, [i1, i2, p]) == s3;
  }

  // ----- activation and rollback -----------------------------------------------------------------------------

  lemma {:induction false} WithoutAbsent(h: seq<Entry>, e: Entry)
    requires forall i :: 0 <= i < |h| ==> h[i] != e
    ensures Without(h, e) == h
  {
    if h != [] {
      var n := |h| - 1;
      WithoutAbsent(h[..n], e);
      assert h == h[..n] + [h[n]];
    }
  }

  /** A rollback brings back what an activation has replaced; while there is room, all of the record but the order. */
  lemma RollbackUndoesActivation(s: PackState, e: Entry)
    requires HistoryOk(s) && PinAllows(s, e) && s.active.Some? && s.active.value != e
    ensures var t := Rollback(Activate(s, e).0).0;
      && Rollback(Activate(s, e).0).1 && t.active == s.active && t.history != [] && t.history[|t.history| - 1] == e
      && (e !in s.history && |s.history| < HISTORY_LIMIT ==> t == s.(history := s.history + [e]))
  {
    if e !in s.history {
      WithoutAbsent(s.history, e);
      var h := s.history + [s.active.value];
      assert h[..|h| - 1] == s.history;
    }
  }

  /** An activation forgets nothing but what is beyond ten, oldest first. */
  lemma ActivationKeepsTheLatest(s: PackState, e: Entry)
    requires HistoryOk(s) && PinAllows(s, e) && s.active.Some? && s.active.value != e
    ensures var h, all := Activate(s, e).0.history, Without(s.history, e) + [s.active.value];
      && |h| == Min(10, |all|) && h == all[|all| - |h|..]
    ensures forall x :: x in Without(s.history, e) <==> x in s.history && x != e
  {
    WithoutMembers(s.history, e);
  }

  // ----- who may change what -----------------------------------------------------------------------------------

  /** An ASCII letter or digit, by its code. */
  predicate HasAlphanumericCode(c: char) {
    var code := c as int;
    48 <= code < 58 || 65 <= code < 91 || 97 <= code < 123
  }

  /** Exactly these versions can be pinned; a refused pin changes nothing, and any other changes only the pin. */
  lemma PinAccepts(s: PackState, version: Option<string>)
    ensures Pin(s, version).1 <==>
              (version.Some? ==>
                 && 0 < |version.value| < 129 && HasAlphanumericCode(version.value[0])
                 && forall c <- version.value :: HasAlphanumericCode(c) || c in {'_', '.', '+', '-'})
    ensures Pin(s, version).0 == if Pin(s, version).1 then s.(pinned := version) else s
  {
    if version.Some? {
      var v := version.value;
      assert forall c :: c in "_.+-" <==> c in {'_', '.', '+', '-'};
      assert forall c: char :: IsAlphanumeric(c) <==> HasAlphanumericCode(c);
      assert forall i :: 0 <= i < |v| ==> v[i] in v;
    }
  }

  /** A feed is configured exactly with a token for that very address; only then is there one, still unchecked. */
  lemma FeedNeedsConsent(s: PackState, url: Url, token: Token)
    ensures var (t, ok) := ConfigureFeed(s, url, token);
      && (ok <==> url.credentialFreeHttps && token == FeedToken(url))
      && (ok ==> FeedIsApproved(t) && t.feed == Some(url) && t.lastChecked.None?)
      && t.active == s.active && t.history == s.history && t.pinned == s.pinned && (!ok ==> t == s)
  {
  }

  /** In every reachable state a configured feed is one that was approved, and a check has a feed. */
  lemma {:induction false} FeedIsAlwaysApproved(ops: seq<Op>)
    ensures var s := RunAll(EMPTY, ops);
      && (s.feed.Some? ==> FeedIsApproved(s)) && (s.feed.None? ==> s.feedApproval.None? && s.lastChecked.None?)
  {
    if ops != [] {
      FeedIsAlwaysApproved(ops[..|ops| - 1]);
    }
  }

  /** The operation has what it takes to make another pack the active one. */
  ghost predicate MayActivate(s: PackState, op: Op) {
    match op
    case InstallOp(e, token) => token == InstallToken(e.version, e.sha) && PinAllows(s, e) && s.active != Some(e)
    case RollbackOp => s.history != [] && s.active != Some(s.history[|s.history| - 1])
    case AutoOp(now, fetched, activeLoads) =>
      && FeedIsApproved(s) && DayHasPassed(s, now) && fetched.Some? && PinAllows(s, fetched.value)
      && (s.active.Some? ==> activeLoads && s.active.value.sha != fetched.value.sha)
    case _ => false
  }

  /** Exactly these operations change the active pack: approved installations, rollbacks and due updates. */
  lemma ActiveChangesIff(s: PackState, op: Op)
    ensures Apply(s, op).active != s.active <==> MayActivate(s, op)
  {
    match op
    case AutoOp(_, _, _) =>
    case InstallOp(_, _) =>
    case _ =>
  }

  // ----- a day between automatic checks ---------------------------------------------------------------

  /** Step `i` of the run is an automatic check that went to the feed. */
  ghost predicate ChecksAt(ops: seq<Op>, i: nat) {
    i < |ops| && ops[i].AutoOp?
    && AutoUpdate(RunAll(EMPTY, ops[..i]), ops[i].now, ops[i].fetched, ops[i].activeLoads).1.Checked?
  }

  ghost predicate Reconfigures(op: Op) { op.ConfigureOp? || op.DisableOp? }

  /** From a check on, the stored time never falls behind that check. */
  lemma {:induction false} CheckIsRemembered(ops: seq<Op>, i: nat, k: nat)
    requires ChecksAt(ops, i) && i < k <= |ops|
    requires forall j :: i < j < k ==> !Reconfigures(ops[j])
    ensures RunAll(EMPTY, ops[..k]).lastChecked.Some?
    ensures RunAll(EMPTY, ops[..k]).lastChecked.value >= ops[i].now
    decreases k
  {
    assert ops[..k][..k - 1] == ops[..k - 1];
    if k > i + 1 { CheckIsRemembered(ops, i, k - 1); }
  }

  /** Any two automatic checks without a feed change in between are at least 24 hours apart. */
  lemma ChecksAreADayApart(ops: seq<Op>, i: nat, j: nat)
    requires i < j && ChecksAt(ops, i) && ChecksAt(ops, j)
    requires forall k :: i < k < j ==> !Reconfigures(ops[k])
    ensures ops[j].now - ops[i].now >= DAY
  {
    CheckIsRemembered(ops, i, j);
  }

  // ----- the manager, which rewrites its record in place ------------------------------------------------

  ghost predicate FeedIsApproved(s: PackState) {
    s.feed.Some? && s.feed.value.credentialFreeHttps && s.feedApproval == Some(FeedToken(s.feed.value))
  }

  ghost predicate DayHasPassed(s: PackState, now: int) { s.lastChecked.Some? ==> now - s.lastChecked.value >= DAY }

  /** Every pack that the record can still name. */
  ghost function Known(s: PackState): multiset<Entry> {
    multiset(s.history) + if s.active.Some? then multiset{s.active.value} else multiset{}
  }

  /** A rollback keeps every known pack, and rolling back again restores the record. */
  lemma RollbackIsUndone(s: PackState)
    requires HistoryOk(s)
    ensures HistoryOk(Rollback(s).0) && Known(Rollback(s).0) == Known(s) && Rollback(Rollback(s).0).0 == s
  {
    RollbackKeepsHistory(s);
    if s.history != [] {
      var n := |s.history| - 1;
      var rest, t := s.history[..n], Rollback(s).0;
      assert t.history == rest + [s.active.value];
      assert t.history[..|t.history| - 1] == rest;
      assert rest + [s.history[n]] == s.history;
    }
  }

  class Manager {
    var state: PackState

    constructor ()
      ensures state == EMPTY
    {
      state := EMPTY;
    }

    /** A pack that the pin allows becomes active; no pack in the record is lost but the oldest beyond ten. */
    method ActivatePack(e: Entry) returns (ok: bool)
      modifies this
      ensures (state, ok) == Activate(old(state), e)
      ensures ok <==> PinAllows(old(state), e)
      ensures HistoryOk(old(state)) ==> HistoryOk(state)
      ensures PinHolds(old(state)) ==> PinHolds(state)
    {
      ok := state.pinned == None || state.pinned.value == e.version;
      if ok {
        var history: seq<Entry> := [];
        for i := 0 to |state.history|
          invariant state == old(state) && history == Without(state.history[..i], e)
        {
          assert state.history[..i + 1][..i] == state.history[..i];
          if state.history[i] != e { history := history + [state.history[i]]; }
        }
        assert state.history[..|state.history|] == state.history;
        if state.active.Some? && state.active.value != e { history := history + [state.active.value]; }
        state := state.(active := Some(e), history := LastTen(history));
      }
      if HistoryOk(old(state)) { ActivateKeepsHistory(old(state), e); }
    }

    /**
      The pack before the active one comes back, and the active one becomes the latest of the history: the
      same packs are known as before, and another rollback undoes this one.
     */
    method RollBack(loads: bool) returns (ok: bool)
      modifies this
      ensures state == Rollback(old(state)).0 && (ok <==> loads && old(state).history != [])
      ensures old(state).history == [] ==> state == old(state)
      ensures HistoryOk(old(state)) ==> HistoryOk(state) && Known(state) == Known(old(state))
      ensures HistoryOk(old(state)) ==> Rollback(state).0 == old(state)
      ensures state.pinned == old(state).pinned && state.feed == old(state).feed
    {
      if state.history == [] { return false; }
      var previous, rest := state.history[|state.history| - 1], state.history[..|state.history| - 1];
      if state.active.Some? { rest := rest + [state.active.value]; }
      state := state.(active := Some(previous), history := LastTen(rest));
      ok := loads;
      if HistoryOk(old(state)) { RollbackIsUndone(old(state)); }
    }

    /**
      The feed is asked exactly if it is configured with consent and a day has passed; the time is kept
      whatever comes of it, and only a pack that the pin allows becomes active.
     */
    method MaybeAutoUpdate(now: int, fetched: Option<Entry>, activeLoads: bool) returns (check: Check)
      modifies this
      ensures (state, check) == AutoUpdate(old(state), now, fetched, activeLoads)
      ensures check.Checked? <==> FeedIsApproved(old(state)) && DayHasPassed(old(state), now)
      ensures check == Disabled <==> old(state).feed.None?
      ensures check == TooEarly <==> FeedIsApproved(old(state)) && !DayHasPassed(old(state), now)
      ensures check == Checked(true) <==>
                check.Checked? && fetched.Some? && PinAllows(old(state), fetched.value)
                && (old(state).active.Some? ==> activeLoads && old(state).active.value.sha != fetched.value.sha)
      ensures state.lastChecked == if check.Checked? then Some(now) else old(state).lastChecked
      ensures check == Checked(true) ==>
                fetched.Some? && state.active == fetched && PinAllows(old(state), fetched.value)
      ensures check != Checked(true) ==> state.active == old(state).active && state.history == old(state).history
      ensures state.pinned == old(state).pinned && state.feed == old(state).feed
      ensures HistoryOk(old(state)) ==> HistoryOk(state)
      ensures PinHolds(old(state)) ==> PinHolds(state)
    {
      if state.feed == None { return Disabled; }
      if !state.feed.value.credentialFreeHttps || state.feedApproval != Some(FeedToken(state.feed.value)) {
        return ConsentInvalid;
      }
      if state.lastChecked.Some? && now - state.lastChecked.value < DAY { return TooEarly; }
      state := state.(lastChecked := Some(now));
      if fetched == None { return Checked(false); }
      if state.active.Some? {
        if !activeLoads || state.active.value.sha == fetched.value.sha { return Checked(false); }
      }
      var ok := ActivatePack(fetched.value);
      check := Checked(ok);
    }
  }
}
