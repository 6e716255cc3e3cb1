/**
 The cache of a JWK Set (section 5 of RFC 7517) under interleaved calls. A call awaits its fetches, and meanwhile other
 calls may answer from, or replace, the shared entry. `kid` is the key id of section 4.5 of RFC 7517.
 */
module JwksCache {
  import opened Wrappers

  /** One JWK: its key id, if any, and what importing it yields; None when it is malformed. */
  datatype Jwk = Jwk(kid: Option<string>, imported: Option<int>)

  type Keys = map<string, int>

  // ---------------------------------------------------------------- importing a key set

  predicate Counts(jwk: Jwk, kid: string) {
    kid != "" && jwk.kid == Some(kid) && jwk.imported.Some?
  }

  /** The reference: the last importable key with this id. */
  function LastKey(jwks: seq<Jwk>, kid: string): Option<int> {
    if jwks == [] then None
    else if Counts(jwks[|jwks| - 1], kid) then jwks[|jwks| - 1].imported
    else LastKey(jwks[..|jwks| - 1], kid)
  }

  /** The key with this id was imported from entry `i`. */
  predicate HasKey(jwks: seq<Jwk>, i: nat, kid: string, key: int)
    requires i < |jwks|
  {
    jwks[i].kid == Some(kid) && jwks[i].imported == Some(key)
  }

  /** The last one wins; an id that no importable entry has, and the empty id, have no key. */
  lemma {:induction false} LastKeyIsLast(jwks: seq<Jwk>, kid: string)
    ensures LastKey(jwks, kid).None? <==> kid == "" || forall i, key :: 0 <= i < |jwks| ==> !HasKey(jwks, i, kid, key)
    ensures LastKey(jwks, kid).Some? ==> exists i ::
      && 0 <= i < |jwks| && HasKey(jwks, i, kid, LastKey(jwks, kid).value)
      && forall j, key :: i < j < |jwks| ==> !HasKey(jwks, j, kid, key)
  {
    if jwks != [] {
      var n := |jwks| - 1;
      var init, last := jwks[..n], jwks[n];
      LastKeyIsLast(init, kid);
      assert forall i, key :: 0 <= i < |init| ==> (HasKey(init, i, kid, key) <==> HasKey(jwks, i, kid, key));
      if Counts(last, kid) {
        assert HasKey(jwks, n, kid, last.imported.value);
      } else {
        assert forall key :: HasKey(jwks, n, kid, key) ==> kid == "";
      }
    }
  }

  function Get(keys: Keys, kid: string): Option<int> {
    if kid in keys then Some(keys[kid]) else None
  }

  /** The loop of a refresh: keys without an id and keys that do not import are skipped. */
  method ImportKeys(jwks: seq<Jwk>) returns (keys: Keys)
    ensures forall kid :: Get(keys, kid) == LastKey(jwks, kid)
  {
    keys := map[];
    for i := 0 to |jwks|
      invariant forall kid :: Get(keys, kid) == LastKey(jwks[..i], kid)
    {
      assert jwks[..i + 1][..i] == jwks[..i];
      var jwk := jwks[i];
      if jwk.kid.Some? && jwk.kid.value != "" {
        if jwk.imported.Some? {
          keys := keys[jwk.kid.value := jwk.imported.value];
        }
      }
    }
    assert jwks[..|jwks|] == jwks;
  }

  // ---------------------------------------------------------------- the cache and its calls

  /** A completed refresh: the call that made it, the set it fetched, and when it expires. */
  datatype Entry = Entry(fetchedBy: nat, jwks: seq<Jwk>, expiresAt: real)

  /** `missed`, or `missedIn`, is the entry that the call looked into first and that did not have the key. */
  datatype Call =
    | FirstFetch(kid: string)
    | SecondFetch(kid: string, missed: nat)
    | Answered(kid: string, key: Option<int>, missedIn: Option<nat>, entry: nat, at: real)
    | Rejected(kid: string)

  /** `entries` are all completed refreshes and `cache` points to the stored one; `fetches` counts fetches per call. */
  datatype State = State(
    now: real,
    entries: seq<Entry>,
    cache: Option<nat>,
    calls: map<nat, Call>,
    fetches: map<nat, nat>
  )

  const EMPTY := State(0.0, [], None, map[], map[])

  datatype Step =
    | GetKey(call: nat, kid: string)
    | FetchFails(call: nat)
    | FetchEnds(call: nat, jwks: seq<Jwk>, lifetime: real)
    | Pass(time: real)

  predicate Fetching(c: Call) {
    c.FirstFetch? || c.SecondFetch?
  }

  predicate Enabled(s: State, step: Step) {
    match step
    case GetKey(c, _) => c !in s.calls
    case FetchFails(c) => c in s.calls && Fetching(s.calls[c])
    case FetchEnds(c, _, lifetime) => c in s.calls && Fetching(s.calls[c]) && lifetime >= 0.0
    case Pass(time) => time >= 0.0
  }

  /** The stored entry, if there is one and it has not expired. */
  function ValidEntry(s: State): Option<nat> {
    if s.cache.Some? && s.cache.value < |s.entries| && s.now < s.entries[s.cache.value].expiresAt then s.cache else None
  }

  function Begin(s: State, c: nat, kid: string): State {
    var valid := ValidEntry(s);
    if valid.None? then s.(calls := s.calls[c := FirstFetch(kid)], fetches := s.fetches[c := 1])
    else
      var key := LastKey(s.entries[valid.value].jwks, kid);
      if key.Some? then
        s.(calls := s.calls[c := Answered(kid, key, None, valid.value, s.now)], fetches := s.fetches[c := 0])
      else s.(calls := s.calls[c := SecondFetch(kid, valid.value)], fetches := s.fetches[c := 1])
  }

  /** A finished refresh replaces the stored entry; the first one looks again, the second one answers. */
  function Finish(s: State, c: nat, entry: Entry): State
    requires c in s.calls && Fetching(s.calls[c]) && c in s.fetches
  {
    var call, i := s.calls[c], |s.entries|;
    var key := LastKey(entry.jwks, call.kid);
    var stored := s.(entries := s.entries + [entry], cache := Some(i));
    if call.SecondFetch? then stored.(calls := s.calls[c := Answered(call.kid, key, Some(call.missed), i, s.now)])
    else if key.Some? then stored.(calls := s.calls[c := Answered(call.kid, key, None, i, s.now)])
    else stored.(calls := s.calls[c := SecondFetch(call.kid, i)], fetches := s.fetches[c := s.fetches[c] + 1])
  }

  function Next(s: State, step: Step): State
    requires Enabled(s, step) && s.calls.Keys == s.fetches.Keys
  {
    match step
    case GetKey(c, kid) => Begin(s, c, kid)
    case FetchFails(c) => s.(calls := s.calls[c := Rejected(s.calls[c].kid)])
    case FetchEnds(c, jwks, lifetime) => Finish(s, c, Entry(c, jwks, s.now + lifetime))
    case Pass(time) => s.(now := s.now + time)
  }

  ghost predicate Valid(s: State, steps: seq<Step>)
    decreases |steps|
  {
    s.calls.Keys == s.fetches.Keys &&
    (steps == [] || (Enabled(s, steps[0]) && Valid(Next(s, steps[0]), steps[1..])))
  }

  ghost function Run(s: State, steps: seq<Step>): State
    requires Valid(s, steps)
    decreases |steps|
  {
    if steps == [] then s else Run(Next(s, steps[0]), steps[1..])
  }

  // ---------------------------------------------------------------- what an answer means

  /** The call looked into this entry without finding the key. */
  predicate Misses(s: State, kid: string, missed: nat) {
    missed < |s.entries| && LastKey(s.entries[missed].jwks, kid).None?
  }

  /** The answer is the last importable key of one fetched set, which the call fetched itself or found unexpired; an
      absent key is absent from a set that the call fetched after it had missed the key in an earlier one. */
  predicate Justified(s: State, c: nat)
    requires c in s.calls && s.calls[c].Answered?
  {
    var a := s.calls[c];
    && a.entry < |s.entries|
    && a.key == LastKey(s.entries[a.entry].jwks, a.kid)
    && (s.entries[a.entry].fetchedBy == c || a.at < s.entries[a.entry].expiresAt)
    && (a.key.None? ==> a.missedIn.Some?)
    && (a.missedIn.Some? ==> a.missedIn.value < a.entry && Misses(s, a.kid, a.missedIn.value))
    && (a.missedIn.Some? ==> s.entries[a.entry].fetchedBy == c)
    && c in s.fetches && (s.fetches[c] == 0 ==> a.at < s.entries[a.entry].expiresAt && a.key.Some?)
    && (s.fetches[c] > 0 ==> s.entries[a.entry].fetchedBy == c)
    && (s.fetches[c] == 2 ==> a.missedIn.Some? && s.entries[a.missedIn.value].fetchedBy == c)
  }

  predicate CallOk(s: State, c: nat)
    requires c in s.calls && c in s.fetches
  {
    match s.calls[c]
    case FirstFetch(_) => s.fetches[c] == 1
    case SecondFetch(kid, missed) =>
      && 1 <= s.fetches[c] <= 2 && Misses(s, kid, missed)
      && (s.fetches[c] == 2 ==> s.entries[missed].fetchedBy == c)
    case Answered(_, _, _, _, _) => s.fetches[c] <= 2 && Justified(s, c)
    case Rejected(_) => 1 <= s.fetches[c] <= 2
  }

  /** The stored entry is the refresh that completed last. */
  predicate StoresLast(s: State) {
    if s.entries == [] then s.cache.None? else s.cache == Some(|s.entries| - 1)
  }

  /** What holds of the cache, and of call `c` once it has begun. */
  predicate Inv(s: State, c: nat) {
    s.calls.Keys == s.fetches.Keys && StoresLast(s) && (c in s.calls ==> CallOk(s, c))
  }

  /** A step of another call only adds entries. */
  lemma OtherCallStaysOk(s: State, t: State, c: nat)
    requires c in s.calls && c in s.fetches && CallOk(s, c) && s.entries <= t.entries
    requires c in t.calls && c in t.fetches && t.calls[c] == s.calls[c] && t.fetches[c] == s.fetches[c]
    ensures CallOk(t, c)
  {
    assert forall i :: 0 <= i < |s.entries| ==> t.entries[i] == s.entries[i];
  }

  lemma BeginKeepsInv(s: State, step: Step, c: nat)
    requires Inv(s, c) && Enabled(s, step) && step.GetKey?
    ensures Inv(Next(s, step), c)
  {
    if c in s.calls {
      OtherCallStaysOk(s, Next(s, step), c);
    }
  }

  lemma FinishKeepsInv(s: State, step: Step, c: nat)
    requires Inv(s, c) && Enabled(s, step) && step.FetchEnds?
    ensures Inv(Next(s, step), c)
  {
    var entry := Entry(step.call, step.jwks, s.now + step.lifetime);
    assert Next(s, step).entries[|s.entries|] == entry;
    if c in s.calls && c != step.call {
      OtherCallStaysOk(s, Next(s, step), c);
    }
  }

  lemma FailureKeepsInv(s: State, step: Step, c: nat)
    requires Inv(s, c) && Enabled(s, step) && step.FetchFails?
    ensures Inv(Next(s, step), c)
  {
    if c in s.calls && c != step.call {
      OtherCallStaysOk(s, Next(s, step), c);
    }
  }

  lemma PassingKeepsInv(s: State, step: Step, c: nat)
    requires Inv(s, c) && Enabled(s, step) && step.Pass?
    ensures Inv(Next(s, step), c)
  {
    if c in s.calls {
      OtherCallStaysOk(s, Next(s, step), c);
    }
  }

  lemma StepKeepsInv(s: State, step: Step, c: nat)
    requires Inv(s, c) && Enabled(s, step)
    ensures Inv(Next(s, step), c)
  {
    match step
    case GetKey(_, _) => BeginKeepsInv(s, step, c);
    case FetchEnds(_, _, _) => FinishKeepsInv(s, step, c);
    case FetchFails(_) => FailureKeepsInv(s, step, c);
    case Pass(_) => PassingKeepsInv(s, step, c);
  }

  lemma {:induction false} RunKeepsInv(s: State, steps: seq<Step>, c: nat)
    requires Inv(s, c) && Valid(s, steps)
    ensures Inv(Run(s, steps), c)
    decreases |steps|
  {
    if steps != [] {
      StepKeepsInv(s, steps[0], c);
      RunKeepsInv(Next(s, steps[0]), steps[1..], c);
    }
  }

  /**
   Under every interleaving: a key that is returned is the last importable one with its id in one set, which was
   unexpired when checked or was fetched by this call; a key is only absent when the call first missed it in one set
   and then fetched another set that does not have it either; a call that fetches nothing was answered from an
   unexpired entry; and no call fetches more than twice, the second time only after the first set missed the key.
   */
  lemma AnswersAreJustified(steps: seq<Step>, c: nat)
    requires Valid(EMPTY, steps) && c in Run(EMPTY, steps).calls
    ensures var s := Run(EMPTY, steps);
      && c in s.fetches && s.fetches[c] <= 2
      && (s.calls[c].Answered? ==> Justified(s, c))
  {
    RunKeepsInv(EMPTY, steps, c);
  }

  // ---------------------------------------------------------------- a call that fetches

  /** How a fetch ends for its call: it is stored as the newest set, with an expiry from its end on, and the call is
      answered by it, unless it is the first and misses the key; then the call fetches again. */
  lemma FetchEndsFor(s: State, c: nat, jwks: seq<Jwk>, lifetime: real)
    requires s.calls.Keys == s.fetches.Keys && c in s.calls && lifetime >= 0.0
    requires s.calls[c].FirstFetch? || s.calls[c].SecondFetch?
    ensures Enabled(s, FetchEnds(c, jwks, lifetime)) && Enabled(s, FetchFails(c))
    ensures var t, kid := Next(s, FetchEnds(c, jwks, lifetime)), s.calls[c].kid;
      && t.entries == s.entries + [Entry(c, jwks, s.now + lifetime)] && t.cache == Some(|s.entries|)
      && c in t.calls
      && (s.calls[c].FirstFetch? && LastKey(jwks, kid).None? ==>
            t.calls[c] == SecondFetch(kid, |s.entries|) && t.fetches[c] == s.fetches[c] + 1)
      && (s.calls[c].SecondFetch? || LastKey(jwks, kid).Some? ==>
            && t.calls[c].Answered? && t.calls[c].kid == kid && t.calls[c].key == LastKey(jwks, kid)
            && t.calls[c].entry == |s.entries| && t.calls[c].at == s.now && t.fetches[c] == s.fetches[c])
    ensures var t := Next(s, FetchFails(c));
      && c in t.calls && t.calls[c] == Rejected(s.calls[c].kid) && t.entries == s.entries && t.cache == s.cache
  {
  }

  /** Steps of other calls, and time. */
  predicate Elsewhere(steps: seq<Step>, c: nat) {
    forall step :: step in steps ==> step.Pass? || step.call != c
  }

  lemma {:induction false} OthersLeaveCall(s: State, steps: seq<Step>, c: nat)
    requires Valid(s, steps) && Elsewhere(steps, c) && c in s.calls && c in s.fetches
    ensures var t := Run(s, steps);
      c in t.calls && t.calls[c] == s.calls[c] && c in t.fetches && t.fetches[c] == s.fetches[c]
    decreases |steps|
  {
    if steps != [] {
      assert steps[0] in steps;
      OthersLeaveCall(Next(s, steps[0]), steps[1..], c);
    }
  }

  /**
   A call that has to fetch is answered, whatever other calls do meanwhile: by its first fetch if that has the key, and
   otherwise by its second one, with the key or without.
   */
  lemma FetchesDecide(
    s: State, c: nat, before: seq<Step>, jwks: seq<Jwk>, lifetime: real, between: seq<Step>, again: seq<Jwk>,
    lifetimeAgain: real)
    requires s.calls.Keys == s.fetches.Keys && c in s.calls && s.calls[c].FirstFetch?
    requires Valid(s, before + ([FetchEnds(c, jwks, lifetime)] + between)) && lifetimeAgain >= 0.0
    requires Elsewhere(before, c) && Elsewhere(between, c)
    ensures var t := Run(s, before + ([FetchEnds(c, jwks, lifetime)] + between));
      && c in t.calls
      && (LastKey(jwks, s.calls[c].kid).Some? ==>
            t.calls[c].Answered? && t.calls[c].key == LastKey(jwks, s.calls[c].kid))
      && (LastKey(jwks, s.calls[c].kid).None? ==>
            && t.calls.Keys == t.fetches.Keys && Enabled(t, FetchEnds(c, again, lifetimeAgain))
            && var u := Next(t, FetchEnds(c, again, lifetimeAgain));
               c in u.calls && u.calls[c].Answered? && u.calls[c].key == LastKey(again, s.calls[c].kid))
  {
    var rest := [FetchEnds(c, jwks, lifetime)] + between;
    RunSplits(s, before, rest);
    OthersLeaveCall(s, before, c);
    var first := Run(s, before);
    assert rest[0] == FetchEnds(c, jwks, lifetime) && rest[1..] == between;
    FetchEndsFor(first, c, jwks, lifetime);
    var stored := Next(first, FetchEnds(c, jwks, lifetime));
    OthersLeaveCall(stored, between, c);
    KeysStayInStep(stored, between);
    if LastKey(jwks, s.calls[c].kid).None? {
      FetchEndsFor(Run(stored, between), c, again, lifetimeAgain);
    }
  }

  lemma {:induction false} KeysStayInStep(s: State, steps: seq<Step>)
    requires Valid(s, steps)
    ensures Run(s, steps).calls.Keys == Run(s, steps).fetches.Keys
    decreases |steps|
  {
    if steps != [] {
      KeysStayInStep(Next(s, steps[0]), steps[1..]);
    }
  }

  function Elapsed(steps: seq<Step>): real {
    if steps == [] then 0.0 else (if steps[0].Pass? then steps[0].time else 0.0) + Elapsed(steps[1..])
  }

  /** Time passes for everybody, and only in steps of time; so a stored set expires when its lifetime is over. */
  lemma {:induction false} TimePasses(s: State, steps: seq<Step>)
    requires Valid(s, steps)
    ensures Run(s, steps).now == s.now + Elapsed(steps) && Elapsed(steps) >= 0.0
    decreases |steps|
  {
    if steps != [] {
      TimePasses(Next(s, steps[0]), steps[1..]);
    }
  }

  // ---------------------------------------------------------------- an unexpired hit

  lemma {:induction false} RunSplits(s: State, first: seq<Step>, rest: seq<Step>)
    requires Valid(s, first + rest)
    ensures Valid(s, first) && Valid(Run(s, first), rest)
    ensures Run(s, first + rest) == Run(Run(s, first), rest)
    decreases |first|
  {
    if first == [] {
      assert first + rest == rest;
    } else {
      assert (first + rest)[1..] == first[1..] + rest;
      RunSplits(Next(s, first[0]), first[1..], rest);
    }
  }

  /** An answered call is over: nothing changes its answer or makes it fetch. */
  lemma {:induction false} AnsweredStays(s: State, steps: seq<Step>, c: nat)
    requires Valid(s, steps) && c in s.calls && s.calls[c].Answered? && c in s.fetches
    ensures c in Run(s, steps).calls && Run(s, steps).calls[c] == s.calls[c]
    ensures c in Run(s, steps).fetches && Run(s, steps).fetches[c] == s.fetches[c]
    decreases |steps|
  {
    if steps != [] {
      AnsweredStays(Next(s, steps[0]), steps[1..], c);
    }
  }

  lemma {:induction false} FetchesOnlyGrow(s: State, steps: seq<Step>, c: nat)
    requires Valid(s, steps) && c in s.calls && c in s.fetches
    ensures c in Run(s, steps).fetches && Run(s, steps).fetches[c] >= s.fetches[c]
    decreases |steps|
  {
    if steps != [] {
      FetchesOnlyGrow(Next(s, steps[0]), steps[1..], c);
    }
  }

  /** The set that was fetched last, as long as it has not expired. */
  function StoredKeys(entries: seq<Entry>, now: real): Option<seq<Jwk>> {
    if entries != [] && now < entries[|entries| - 1].expiresAt then Some(entries[|entries| - 1].jwks) else None
  }

  predicate Hits(s: State, kid: string) {
    StoredKeys(s.entries, s.now).Some? && LastKey(StoredKeys(s.entries, s.now).value, kid).Some?
  }

  /** How a call begins, in terms of the set that was fetched last. */
  lemma BeginAgrees(s: State, c: nat, kid: string)
    requires StoresLast(s)
    ensures Begin(s, c, kid).calls[c] ==
      match StoredKeys(s.entries, s.now)
      case None => FirstFetch(kid)
      case Some(jwks) =>
        if LastKey(jwks, kid).Some? then Answered(kid, LastKey(jwks, kid), None, |s.entries| - 1, s.now)
        else SecondFetch(kid, |s.entries| - 1)
    ensures Begin(s, c, kid).fetches[c] == if Hits(s, kid) then 0 else 1
  {
  }

  /**
   Under every interleaving: a call fetches nothing exactly when, at the time it begins, the set that was fetched last
   has not expired and has its key; and then it is answered with that key.
   */
  lemma UnexpiredHitFetchesNothing(before: seq<Step>, c: nat, kid: string, after: seq<Step>)
    requires Valid(EMPTY, before + ([GetKey(c, kid)] + after))
    ensures Valid(EMPTY, before)
    ensures var s, t := Run(EMPTY, before), Run(EMPTY, before + ([GetKey(c, kid)] + after));
      && c in t.fetches && (t.fetches[c] == 0 <==> Hits(s, kid))
      && (Hits(s, kid) ==>
            c in t.calls && t.calls[c] ==
              Answered(kid, LastKey(s.entries[|s.entries| - 1].jwks, kid), None, |s.entries| - 1, s.now))
  {
    RunSplits(EMPTY, before, [GetKey(c, kid)] + after);
    var s := Run(EMPTY, before);
    RunKeepsInv(EMPTY, before, c);
    BeginAgrees(s, c, kid);
    assert ([GetKey(c, kid)] + after)[1..] == after;
    FetchesOnlyGrow(Next(s, GetKey(c, kid)), after, c);
    if Hits(s, kid) {
      AnsweredStays(Next(s, GetKey(c, kid)), after, c);
    }
  }

  // ---------------------------------------------------------------- the cache object

  /** The object between its awaits. `entries` is history; the code keeps only the last entry and its imported keys. */
  class Cache {
    ghost var entries: seq<Entry>
    var hasEntry: bool
    var keys: Keys
    var expiresAt: real

    constructor ()
      ensures Valid() && entries == []
    {
      entries, hasEntry, keys, expiresAt := [], false, map[], 0.0;
    }

    ghost predicate Valid()
      reads this
    {
      && (hasEntry <==> entries != [])
      && (hasEntry ==>
            var e := entries[|entries| - 1];
            expiresAt == e.expiresAt && forall kid :: Get(keys, kid) == LastKey(e.jwks, kid))
    }

    /** Up to the first await: answered when the stored entry is unexpired and has the key. */
    method BeginGetKey(kid: string, now: real) returns (begun: Begun)
      requires Valid()
      ensures begun == match StoredKeys(entries, now)
                       case None => FetchFirst
                       case Some(jwks) => if LastKey(jwks, kid).Some? then Hit(LastKey(jwks, kid).value) else FetchAgain
    {
      if !hasEntry || now >= expiresAt {
        return FetchFirst;
      }
      assert Get(keys, kid) == LastKey(entries[|entries| - 1].jwks, kid);
      begun := if kid in keys then Hit(keys[kid]) else FetchAgain;
    }

    /** The end of a refresh: the new entry is stored whatever was stored meanwhile, and looked up. */
    method EndRefresh(caller: nat, kid: string, jwks: seq<Jwk>, now: real, lifetime: real) returns (key: Option<int>)
      requires Valid()
      modifies this
      ensures Valid() && entries == old(entries) + [Entry(caller, jwks, now + lifetime)]
      ensures key == LastKey(jwks, kid)
    {
      keys := ImportKeys(jwks);
      hasEntry, expiresAt := true, now + lifetime;
      entries := entries + [Entry(caller, jwks, now + lifetime)];
      key := Get(keys, kid);
    }
  }

  datatype Begun = Hit(key: int) | FetchFirst | FetchAgain
}
