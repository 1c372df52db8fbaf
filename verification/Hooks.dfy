// Hook subscriptions: the loops of handleInitialize, isHookSupported and TriggerHook (server/server.go,
// server/request.go). Compiling and matching regular expressions are parameters.
module Hooks {
  const WORD: nat := 0x1_0000_0000

  datatype Sub = Sub(id: string, event: string, matcher: string, timeout: nat)

  // matcher "" stands for the nil matcher, which matches every target.
  datatype Hook = Hook(id: string, event: string, matcher: string, timeout: nat)

  datatype Config = Config(supported: seq<string>, compiles: string -> bool, matches: (string, string) -> bool)

  function Keeps(cfg: Config, s: Sub): bool {
    s.event in cfg.supported && (s.matcher == "" || cfg.compiles(s.matcher))
  }

  function HookOf(s: Sub): Hook {
    Hook(s.id, s.event, s.matcher, s.timeout)
  }

  function Stored(cfg: Config, subs: seq<Sub>): map<string, Hook> {
    if subs == [] then map[]
    else
      var before, s := Stored(cfg, subs[..|subs| - 1]), subs[|subs| - 1];
      if Keeps(cfg, s) then before[s.id := HookOf(s)] else before
  }

  // The number of subscriptions for this event that are kept.
  function Kept(cfg: Config, subs: seq<Sub>, event: string): nat {
    if subs == [] then 0
    else
      var s := subs[|subs| - 1];
      Kept(cfg, subs[..|subs| - 1], event) + if Keeps(cfg, s) && s.event == event then 1 else 0
  }

  // The 32-bit counters reported as configured.
  function Configured(cfg: Config, subs: seq<Sub>): map<string, nat> {
    if subs == [] then map[]
    else
      var before, s := Configured(cfg, subs[..|subs| - 1]), subs[|subs| - 1];
      if Keeps(cfg, s) then before[s.event := Increment(CountOf(before, s.event))] else before
  }

  function CountOf(configured: map<string, nat>, event: string): nat {
    if event in configured then configured[event] else 0
  }

  function Increment(n: nat): nat {
    (n + 1) % WORD
  }

  method IsHookSupported(cfg: Config, event: string) returns (b: bool)
    ensures b <==> event in cfg.supported
  {
    var i := 0;
    while i < |cfg.supported|
      invariant i <= |cfg.supported| && event !in cfg.supported[..i]
    {
      if cfg.supported[i] == event {
        return true;
      }
      i := i + 1;
    }
    return false;
  }

  lemma KeptThen(cfg: Config, subs: seq<Sub>, s: Sub)
    ensures Stored(cfg, subs + [s]) == if Keeps(cfg, s) then Stored(cfg, subs)[s.id := HookOf(s)] else Stored(cfg, subs)
    ensures forall e :: Kept(cfg, subs + [s], e) == Kept(cfg, subs, e) + if Keeps(cfg, s) && s.event == e then 1 else 0
    ensures var before := Configured(cfg, subs);
            Configured(cfg, subs + [s]) == if Keeps(cfg, s)
                then before[s.event := Increment(CountOf(before, s.event))] else before
  {
    assert (subs + [s])[..|subs|] == subs;
  }

  method Configure(cfg: Config, subs: seq<Sub>) returns (hooks: map<string, Hook>, configured: map<string, nat>)
    ensures hooks == Stored(cfg, subs) && configured == Configured(cfg, subs)
  {
    hooks, configured := map[], map[];
    var i := 0;
    while i < |subs|
      invariant i <= |subs| && hooks == Stored(cfg, subs[..i]) && configured == Configured(cfg, subs[..i])
    {
      var sub := subs[i];
      KeptThen(cfg, subs[..i], sub);
      assert subs[..i + 1] == subs[..i] + [sub];
      i := i + 1;
      var supported := IsHookSupported(cfg, sub.event);
      if !supported {
        continue;
      }
      if sub.matcher != "" && !cfg.compiles(sub.matcher) {
        continue;
      }
      hooks := hooks[sub.id := Hook(sub.id, sub.event, sub.matcher, sub.timeout)];
      var n := if sub.event in configured then configured[sub.event] else 0;
      configured := configured[sub.event := Increment(n)];
    }
    assert subs[..i] == subs;
  }

  // A 32-bit counter that has been incremented k times.
  function Counter(k: nat): nat {
    k % WORD
  }

  lemma IncrementCounter(k: nat)
    ensures Increment(Counter(k)) == Counter(k + 1)
  {
    var q := k / WORD;
    assert k == q * WORD + k % WORD;
    if k % WORD + 1 < WORD {
      assert (k + 1) % WORD == k % WORD + 1;
    } else {
      assert k + 1 == (q + 1) * WORD;
    }
  }

  // An event is reported exactly when a subscription for it was kept, with their number modulo 2^32.
  lemma {:induction false} ConfiguredExactly(cfg: Config, subs: seq<Sub>, event: string)
    ensures event in Configured(cfg, subs) <==> Kept(cfg, subs, event) > 0
    ensures CountOf(Configured(cfg, subs), event) == Counter(Kept(cfg, subs, event))
    ensures Kept(cfg, subs, event) > 0 ==> event in cfg.supported
  {
    if subs != [] {
      ConfiguredExactly(cfg, subs[..|subs| - 1], event);
      IncrementCounter(Kept(cfg, subs[..|subs| - 1], event));
    }
  }

  // ---------------------------------------------------------------------------------------------
  // Counted and stored
  // ---------------------------------------------------------------------------------------------

  function StoredFor(hooks: map<string, Hook>, event: string): set<string> {
    set id | id in hooks && hooks[id].event == event
  }

  // Subscription i is kept, and a later one that is kept has the same id.
  ghost predicate Replaced(cfg: Config, subs: seq<Sub>, i: nat) {
    && i < |subs| && Keeps(cfg, subs[i])
    && exists j: nat :: i < j < |subs| && Keeps(cfg, subs[j]) && subs[j].id == subs[i].id
  }

  ghost predicate AnyReplaced(cfg: Config, subs: seq<Sub>, event: string) {
    exists i: nat :: i < |subs| && subs[i].event == event && Replaced(cfg, subs, i)
  }

  lemma {:induction false} Origin(cfg: Config, subs: seq<Sub>, id: string) returns (i: nat)
    requires id in Stored(cfg, subs)
    ensures i < |subs| && Keeps(cfg, subs[i]) && subs[i].id == id && Stored(cfg, subs)[id] == HookOf(subs[i])
    ensures !Replaced(cfg, subs, i)
  {
    var before, s := subs[..|subs| - 1], subs[|subs| - 1];
    if Keeps(cfg, s) && s.id == id {
      i := |subs| - 1;
    } else {
      i := Origin(cfg, before, id);
      assert before[i] == subs[i];
      forall j: nat | i < j < |subs| && Keeps(cfg, subs[j]) ensures subs[j].id != id {
        if j < |before| {
          assert before[j] == subs[j];
        }
      }
    }
  }

  lemma {:induction false} Survives(cfg: Config, subs: seq<Sub>, i: nat)
    requires i < |subs| && Keeps(cfg, subs[i])
    ensures subs[i].id in Stored(cfg, subs)
    ensures !Replaced(cfg, subs, i) ==> Stored(cfg, subs)[subs[i].id] == HookOf(subs[i])
  {
    var before := subs[..|subs| - 1];
    if i < |before| {
      Survives(cfg, before, i);
      assert before[i] == subs[i];
      assert forall j: nat | j < |before| :: before[j] == subs[j];
    }
  }

  // The server supports the event, and there is no matcher or it compiles.
  predicate Usable(cfg: Config, s: Sub) {
    s.event in cfg.supported && (s.matcher == "" || cfg.compiles(s.matcher))
  }

  // Subscription i is the last usable one with this id.
  ghost predicate LastUsable(cfg: Config, subs: seq<Sub>, id: string, i: nat) {
    && i < |subs| && Usable(cfg, subs[i]) && subs[i].id == id
    && forall j: nat | i < j < |subs| && Usable(cfg, subs[j]) :: subs[j].id != id
  }

  // A hook is stored exactly for the ids of usable subscriptions, with event, matcher and timeout of the last
  // one with its id.
  lemma {:induction false} StoredExactly(cfg: Config, subs: seq<Sub>, id: string, h: Hook)
    ensures id in Stored(cfg, subs) && Stored(cfg, subs)[id] == h <==>
            exists i: nat :: LastUsable(cfg, subs, id, i)
                && h.id == id && h.event == subs[i].event && h.matcher == subs[i].matcher
                && h.timeout == subs[i].timeout
  {
    assert forall s :: Keeps(cfg, s) <==> Usable(cfg, s);
    if id in Stored(cfg, subs) {
      var i := Origin(cfg, subs, id);
      assert LastUsable(cfg, subs, id, i);
    }
    forall i: nat | LastUsable(cfg, subs, id, i)
      ensures id in Stored(cfg, subs) && Stored(cfg, subs)[id] == HookOf(subs[i])
    {
      Survives(cfg, subs, i);
    }
  }

  // The positions of the usable subscriptions for an event.
  function UsableFor(cfg: Config, subs: seq<Sub>, event: string): set<nat> {
    set i: nat | i < |subs| && Usable(cfg, subs[i]) && subs[i].event == event
  }

  lemma {:induction false} KeptCounts(cfg: Config, subs: seq<Sub>, event: string)
    ensures Kept(cfg, subs, event) == |UsableFor(cfg, subs, event)|
  {
    if subs == [] {
      assert UsableFor(cfg, subs, event) == {};
    } else {
      var before, s := subs[..|subs| - 1], subs[|subs| - 1];
      KeptCounts(cfg, before, event);
      var some := UsableFor(cfg, before, event);
      assert |before| !in some;
      if Usable(cfg, s) && s.event == event {
        assert UsableFor(cfg, subs, event) == some + {|before|};
      } else {
        assert UsableFor(cfg, subs, event) == some;
      }
    }
  }

  // An event is reported exactly if a subscription for it is usable, with their number modulo 2^32.
  lemma {:induction false} ReportedExactly(cfg: Config, subs: seq<Sub>, event: string)
    ensures event in Configured(cfg, subs) <==> UsableFor(cfg, subs, event) != {}
    ensures event in Configured(cfg, subs) ==>
              Configured(cfg, subs)[event] == |UsableFor(cfg, subs, event)| % 0x1_0000_0000
  {
    ConfiguredExactly(cfg, subs, event);
    KeptCounts(cfg, subs, event);
  }

  // What one more subscription does to the stored ids of an event.
  function Updated(ids: set<string>, id: string, add: bool): set<string> {
    if add then ids + {id} else ids - {id}
  }

  lemma StoredForThen(cfg: Config, subs: seq<Sub>, s: Sub, event: string)
    ensures var ids, ids' := StoredFor(Stored(cfg, subs), event), StoredFor(Stored(cfg, subs + [s]), event);
            ids' == if Keeps(cfg, s) then Updated(ids, s.id, s.event == event) else ids
  {
    KeptThen(cfg, subs, s);
  }

  // When nothing for the event was replaced so far, an id is stored for it exactly when it was kept
  // for it; and the next subscription replaces something exactly when its id is stored.
  lemma ReplacesExactly(cfg: Config, subs: seq<Sub>, s: Sub, event: string)
    requires !AnyReplaced(cfg, subs, event)
    ensures AnyReplaced(cfg, subs + [s], event) <==> Keeps(cfg, s) && s.id in StoredFor(Stored(cfg, subs), event)
  {
    var all := subs + [s];
    assert forall j: nat | j < |subs| :: all[j] == subs[j];
    if Keeps(cfg, s) && s.id in StoredFor(Stored(cfg, subs), event) {
      var i := Origin(cfg, subs, s.id);
      assert all[|subs|] == s && Replaced(cfg, all, i);
    }
    if AnyReplaced(cfg, all, event) {
      var i: nat :| i < |all| && all[i].event == event && Replaced(cfg, all, i);
      var j: nat :| i < j < |all| && Keeps(cfg, all[j]) && all[j].id == all[i].id;
      assert all[i] == subs[i];
      assert !Replaced(cfg, subs, i);
      assert j == |subs|;
      Survives(cfg, subs, i);
    }
  }

  lemma ReplacedStays(cfg: Config, subs: seq<Sub>, s: Sub, event: string)
    requires AnyReplaced(cfg, subs, event)
    ensures AnyReplaced(cfg, subs + [s], event)
  {
    var all := subs + [s];
    assert forall j: nat | j < |subs| :: all[j] == subs[j];
    var i: nat :| i < |subs| && subs[i].event == event && Replaced(cfg, subs, i);
    assert Replaced(cfg, all, i);
  }

  lemma UpdatedSize(ids: set<string>, id: string, add: bool)
    ensures |Updated(ids, id, add)| == |ids| + if add && id !in ids then 1 else if !add && id in ids then -1 else 0
  {
    if id in ids {
      assert ids == (ids - {id}) + {id};
    } else {
      assert ids - {id} == ids;
    }
  }

  // For every event, at least as many subscriptions are counted as are stored, and as many exactly
  // when none of those counted was replaced by a later one with the same id.
  lemma {:induction false} CountedExactly(cfg: Config, subs: seq<Sub>, event: string)
    ensures |StoredFor(Stored(cfg, subs), event)| <= Kept(cfg, subs, event)
    ensures |StoredFor(Stored(cfg, subs), event)| == Kept(cfg, subs, event) <==> !AnyReplaced(cfg, subs, event)
  {
    if subs != [] {
      var before, s := subs[..|subs| - 1], subs[|subs| - 1];
      assert subs == before + [s];
      CountedExactly(cfg, before, event);
      KeptThen(cfg, before, s);
      StoredForThen(cfg, before, s, event);
      UpdatedSize(StoredFor(Stored(cfg, before), event), s.id, s.event == event);
      if AnyReplaced(cfg, before, event) {
        ReplacedStays(cfg, before, s, event);
      } else {
        ReplacesExactly(cfg, before, s, event);
      }
    }
  }

  lemma DistinctIds(cfg: Config, subs: seq<Sub>, event: string)
    requires forall i: nat, j: nat | i < j < |subs| :: subs[i].id != subs[j].id
    ensures |StoredFor(Stored(cfg, subs), event)| == Kept(cfg, subs, event)
  {
    CountedExactly(cfg, subs, event);
  }

  // ---------------------------------------------------------------------------------------------
  // TriggerHook
  // ---------------------------------------------------------------------------------------------

  predicate Fits(cfg: Config, h: Hook, event: string, target: string) {
    h.event == event && (h.matcher == "" || cfg.matches(h.matcher, target))
  }

  datatype Choice = NoHook | Chosen(hook: Hook)

  // An order in which the map of subscriptions can be iterated.
  predicate IsOrder(hooks: map<string, Hook>, order: seq<string>) {
    (forall id | id in order :: id in hooks) && (forall id | id in hooks :: id in order)
  }

  // The first subscription in this order that fits.
  function Choose(cfg: Config, hooks: map<string, Hook>, order: seq<string>, event: string, target: string): Choice {
    if order == [] then NoHook
    else if order[0] in hooks && Fits(cfg, hooks[order[0]], event, target) then Chosen(hooks[order[0]])
    else Choose(cfg, hooks, order[1..], event, target)
  }

  ghost predicate AnyFits(cfg: Config, hooks: map<string, Hook>, event: string, target: string) {
    exists id :: id in hooks && Fits(cfg, hooks[id], event, target)
  }

  lemma {:induction false} ChooseFrom(cfg: Config, hooks: map<string, Hook>, order: seq<string>, event: string,
        target: string)
    ensures var c := Choose(cfg, hooks, order, event, target);
            && (c.NoHook? <==> forall id | id in order && id in hooks :: !Fits(cfg, hooks[id], event, target))
            && (c.Chosen? ==> c.hook in hooks.Values && Fits(cfg, c.hook, event, target))
  {
    if order != [] {
      ChooseFrom(cfg, hooks, order[1..], event, target);
      assert forall id :: id in order <==> id == order[0] || id in order[1..];
    }
  }

  // A hook fits exactly if it is for the event, and it has no matcher or its matcher matches the target.
  lemma FitsExactly(cfg: Config, h: Hook, event: string, target: string)
    ensures Fits(cfg, h, event, target) <==>
            h.event == event && (h.matcher != "" ==> cfg.matches(h.matcher, target))
  {
  }

  // Whatever the order of the map, something is chosen exactly when a stored subscription fits, and what
  // is chosen is stored and fits.
  lemma ChooseExactly(cfg: Config, hooks: map<string, Hook>, order: seq<string>, event: string, target: string)
    requires IsOrder(hooks, order)
    ensures var c := Choose(cfg, hooks, order, event, target);
            && (c.Chosen? <==> AnyFits(cfg, hooks, event, target))
            && (c.Chosen? ==> c.hook in hooks.Values && Fits(cfg, c.hook, event, target))
  {
    ChooseFrom(cfg, hooks, order, event, target);
  }

  method ChooseHook(cfg: Config, hooks: map<string, Hook>, order: seq<string>, event: string, target: string)
    returns (c: Choice)
    requires IsOrder(hooks, order)
    ensures c == Choose(cfg, hooks, order, event, target)
    ensures c.Chosen? <==> AnyFits(cfg, hooks, event, target)
    ensures c.Chosen? ==> c.hook in hooks.Values && Fits(cfg, c.hook, event, target)
  {
    ChooseExactly(cfg, hooks, order, event, target);
    var i := 0;
    while i < |order|
      invariant i <= |order|
      invariant Choose(cfg, hooks, order, event, target) == Choose(cfg, hooks, order[i..], event, target)
    {
      var candidate := hooks[order[i]];
      assert order[i..][1..] == order[i + 1..];
      i := i + 1;
      if candidate.event != event {
        continue;
      }
      if candidate.matcher != "" && !cfg.matches(candidate.matcher, target) {
        continue;
      }
      return Chosen(candidate);
    }
    return NoHook;
  }
}
