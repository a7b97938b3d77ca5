/** Collecting the files of a media group until no more have come for a while.
    Every file arms a timer for its key and stops the previous one; a timer that
    has fired waits for the lock and cannot be stopped any more. The machine
    covers every interleaving of files, firings and waiting callbacks. */
module Debounce {

  /** The handler's two maps: pending files and current timer of each key. */
  datatype Handler<!K, F> = Handler(groups: map<K, seq<F>>, timers: map<K, nat>)

  function PendingFiles<K, F>(h: Handler<K, F>, key: K): seq<F> {
    if key in h.groups then h.groups[key] else []
  }

  function WithFile<K, F>(h: Handler<K, F>, key: K, file: F, timer: nat): Handler<K, F> {
    Handler(h.groups[key := PendingFiles(h, key) + [file]], h.timers[key := timer])
  }

  function Without<K, F>(h: Handler<K, F>, key: K): Handler<K, F> {
    Handler(h.groups - {key}, h.timers - {key})
  }

  // ------------------------------------------------- the locked sections

  class MediaGroupHandler<!K(==), F> {
    var groups: map<K, seq<F>>
    var timers: map<K, nat>

    function State(): Handler<K, F>
      reads this
    {
      Handler(groups, timers)
    }

    constructor ()
      ensures State() == Handler(map[], map[])
    {
      groups, timers := map[], map[];
    }

    /** Adds a file under the new timer and returns the timer to stop, if any. */
    method AddFile(key: K, file: F, timer: nat) returns (toStop: set<nat>)
      modifies this
      ensures State() == WithFile(old(State()), key, file, timer)
      ensures toStop == if key in old(timers) then {old(timers)[key]} else {}
    {
      if key !in groups {
        groups := groups[key := []];
      }
      groups := groups[key := groups[key] + [file]];
      toStop := if key in timers then {timers[key]} else {};
      timers := timers[key := timer];
    }

    /** Takes everything pending under the key. */
    method ProcessMediaGroup(key: K) returns (items: seq<F>)
      modifies this
      ensures State() == Without(old(State()), key)
      ensures items == PendingFiles(old(State()), key)
    {
      items := if key in groups then groups[key] else [];
      groups := groups - {key};
      timers := timers - {key};
    }
  }

  // --------------------------------------------------- the whole machine

  datatype Status = Armed | Cancelled | Fired | Over

  datatype Timer<K> = Timer(key: K, status: Status)

  datatype Arrival<K, F> = Arrival(key: K, file: F)

  datatype Batch<K, F> = Batch(key: K, files: seq<F>)

  /** A timer is named by its position in `timers`. */
  datatype System<!K, F> = System(
    handler: Handler<K, F>,
    timers: seq<Timer<K>>,
    received: seq<Arrival<K, F>>,
    taken: seq<Batch<K, F>>)

  function Start<K, F>(): System<K, F> {
    System(Handler(map[], map[]), [], [], [])
  }

  datatype Step<K, F> =
    | Receive(key: K, file: F)
    | Fire(timer: nat)
    | RunCallback(timer: nat)

  predicate Enabled<K, F>(s: System<K, F>, step: Step<K, F>) {
    match step
    case Receive(_, _) => true
    case Fire(t) => t < |s.timers| && s.timers[t].status.Armed?
    case RunCallback(t) => t < |s.timers| && s.timers[t].status.Fired?
  }

  function SetStatus<K>(timers: seq<Timer<K>>, t: nat, status: Status): seq<Timer<K>>
    requires t < |timers|
  {
    timers[t := timers[t].(status := status)]
  }

  /** Stopping works only on a timer that has not fired. */
  function Stop<K>(timers: seq<Timer<K>>, t: nat): seq<Timer<K>> {
    if t < |timers| && timers[t].status.Armed? then SetStatus(timers, t, Cancelled) else timers
  }

  function Next<K, F>(s: System<K, F>, step: Step<K, F>): System<K, F>
    requires Enabled(s, step)
  {
    match step
    case Receive(key, file) =>
      var stopped := if key in s.handler.timers then Stop(s.timers, s.handler.timers[key]) else s.timers;
      s.(handler := WithFile(s.handler, key, file, |s.timers|),
         timers := stopped + [Timer(key, Armed)],
         received := s.received + [Arrival(key, file)])
    case Fire(t) => s.(timers := SetStatus(s.timers, t, Fired))
    case RunCallback(t) =>
      var key := s.timers[t].key;
      var files := PendingFiles(s.handler, key);
      s.(handler := Without(s.handler, key),
         timers := SetStatus(s.timers, t, Over),
         taken := if files == [] then s.taken else s.taken + [Batch(key, files)])
  }

  ghost predicate Leads<K, F>(s: System<K, F>, steps: seq<Step<K, F>>, r: System<K, F>)
    decreases |steps|
  {
    if steps == [] then s == r
    else Enabled(s, steps[0]) && Leads(Next(s, steps[0]), steps[1..], r)
  }

  /** The files received under a key, in order. */
  function ReceivedFor<K(==), F>(received: seq<Arrival<K, F>>, key: K): seq<F> {
    if received == [] then []
    else
      var n := |received| - 1;
      ReceivedFor(received[..n], key) + if received[n].key == key then [received[n].file] else []
  }

  /** The files of all batches handed on for a key, in order. */
  function TakenFor<K(==), F>(taken: seq<Batch<K, F>>, key: K): seq<F> {
    if taken == [] then []
    else
      var n := |taken| - 1;
      TakenFor(taken[..n], key) + if taken[n].key == key then taken[n].files else []
  }

  ghost predicate Live<K>(timers: seq<Timer<K>>, t: nat, key: K) {
    t < |timers| && timers[t].key == key && (timers[t].status.Armed? || timers[t].status.Fired?)
  }

  ghost predicate KeyInv<K, F>(s: System<K, F>, key: K) {
    && ReceivedFor(s.received, key) == TakenFor(s.taken, key) + PendingFiles(s.handler, key)
    && (key in s.handler.groups <==> key in s.handler.timers)
    && (key in s.handler.groups ==> s.handler.groups[key] != [] && Live(s.timers, s.handler.timers[key], key))
  }

  lemma ReceiveKeeps<K, F>(s: System<K, F>, key: K, file: F, other: K)
    requires KeyInv(s, key) && KeyInv(s, other)
    ensures KeyInv(Next(s, Receive(key, file)), other)
  {
    var r := Next(s, Receive(key, file));
    assert r.received[..|s.received|] == s.received;
  }

  lemma FireKeeps<K, F>(s: System<K, F>, t: nat, other: K)
    requires KeyInv(s, other) && Enabled(s, Fire(t))
    ensures KeyInv(Next(s, Fire(t)), other)
  {
  }

  lemma RunCallbackKeeps<K, F>(s: System<K, F>, t: nat, other: K)
    requires KeyInv(s, other) && Enabled(s, RunCallback(t))
    ensures KeyInv(Next(s, RunCallback(t)), other)
  {
    var key := s.timers[t].key;
    var files := PendingFiles(s.handler, key);
    TakenForSnoc(s.taken, key, files, other);
    assert other == key ==>
      TakenFor(s.taken, other) + files + [] == TakenFor(s.taken, other) + files;
  }

  lemma TakenForSnoc<K, F>(taken: seq<Batch<K, F>>, key: K, files: seq<F>, other: K)
    ensures TakenFor(taken + [Batch(key, files)], other)
         == if key == other then TakenFor(taken, other) + files else TakenFor(taken, other)
  {
    assert (taken + [Batch(key, files)])[..|taken|] == taken;
  }

  lemma StepKeeps<K(!new), F>(s: System<K, F>, step: Step<K, F>)
    requires (forall key: K :: KeyInv(s, key)) && Enabled(s, step)
    ensures forall key: K :: KeyInv(Next(s, step), key)
  {
    forall key: K ensures KeyInv(Next(s, step), key) {
      match step {
        case Receive(k, file) => ReceiveKeeps(s, k, file, key);
        case Fire(t) => FireKeeps(s, t, key);
        case RunCallback(t) => RunCallbackKeeps(s, t, key);
      }
    }
  }

  lemma {:induction false} LeadsKeeps<K(!new), F>(s: System<K, F>, steps: seq<Step<K, F>>, r: System<K, F>)
    requires (forall key: K :: KeyInv(s, key)) && Leads(s, steps, r)
    ensures forall key: K :: KeyInv(r, key)
    decreases |steps|
  {
    if steps != [] {
      StepKeeps(s, steps[0]);
      LeadsKeeps(Next(s, steps[0]), steps[1..], r);
    }
  }

  /** In every interleaving, timers that fire just before they are stopped
      included: the files received under a key are those handed on, in order,
      then those pending, none lost and none twice; and while any are pending
      the key's current timer is armed or its callback is about to run. */
  lemma NoFileLost<K(!new), F>(steps: seq<Step<K, F>>, r: System<K, F>, key: K)
    requires Leads(Start<K, F>(), steps, r)
    ensures ReceivedFor(r.received, key) == TakenFor(r.taken, key) + PendingFiles(r.handler, key)
    ensures PendingFiles(r.handler, key) != [] ==>
              key in r.handler.timers && Live(r.timers, r.handler.timers[key], key)
  {
    LeadsKeeps(Start<K, F>(), steps, r);
    assert KeyInv(r, key);
  }

  /** When no timer is armed and no callback waits, every file was handed on. */
  lemma QuietMeansAllHandedOn<K(!new), F>(steps: seq<Step<K, F>>, r: System<K, F>, key: K)
    requires Leads(Start<K, F>(), steps, r)
    requires forall t :: 0 <= t < |r.timers| ==> r.timers[t].status.Cancelled? || r.timers[t].status.Over?
    ensures TakenFor(r.taken, key) == ReceivedFor(r.received, key)
  {
    NoFileLost(steps, r, key);
  }

  // ------------------------------------------- which timers are armed

  ghost predicate TimersInOrder<K, F>(s: System<K, F>, key: K) {
    && |s.timers| == |s.received|
    && (forall t :: 0 <= t < |s.timers| ==> s.timers[t].key == s.received[t].key)
    && (key in s.handler.timers ==>
          && s.handler.timers[key] < |s.timers|
          && s.timers[s.handler.timers[key]].key == key
          && forall t :: s.handler.timers[key] < t < |s.timers| ==> s.timers[t].key != key)
  }

  lemma {:induction false} LeadsInOrder<K, F>(s: System<K, F>, steps: seq<Step<K, F>>, r: System<K, F>, key: K)
    requires TimersInOrder(s, key) && Leads(s, steps, r)
    ensures TimersInOrder(r, key)
    decreases |steps|
  {
    if steps != [] {
      LeadsInOrder(Next(s, steps[0]), steps[1..], r, key);
    }
  }

  /** Every file has a timer of its own, and the current timer of a key is that of
      its latest file: while it runs, nothing has come for the key since. */
  lemma CurrentIsLatest<K, F>(steps: seq<Step<K, F>>, r: System<K, F>, key: K)
    requires Leads(Start<K, F>(), steps, r)
    ensures |r.timers| == |r.received|
    ensures key in r.handler.timers ==>
              var t := r.handler.timers[key];
              t < |r.received| && r.received[t].key == key
              && forall later :: t < later < |r.received| ==> r.received[later].key != key
  {
    LeadsInOrder(Start<K, F>(), steps, r, key);
  }

  /** No timer of the key but its current one can still fire. */
  ghost predicate OneArmed<K, F>(s: System<K, F>, key: K) {
    forall t: nat :: t < |s.timers| && s.timers[t].key == key && s.timers[t].status.Armed? ==>
      key in s.handler.timers && s.handler.timers[key] == t
  }

  /** A callback that waited for the lock finds a newer file of its key, whose
      timer is still armed. */
  ghost predicate Overtaken<K, F>(s: System<K, F>, step: Step<K, F>, key: K) {
    && step.RunCallback? && step.timer < |s.timers| && s.timers[step.timer].key == key
    && key in s.handler.timers && s.handler.timers[key] < |s.timers|
    && s.timers[s.handler.timers[key]].status.Armed?
  }

  /** A step leaves a second timer armed for a key exactly when it is the callback
      of an overtaken one: the callback forgets the newer timer without stopping
      it. */
  lemma SecondTimerIff<K, F>(s: System<K, F>, step: Step<K, F>, key: K)
    requires TimersInOrder(s, key) && Enabled(s, step) && OneArmed(s, key)
    ensures OneArmed(Next(s, step), key) <==> !Overtaken(s, step, key)
  {
    var r := Next(s, step);
    if Overtaken(s, step, key) {
      var t := s.handler.timers[key];
      assert r.timers[t] == s.timers[t];
    } else if step.Receive? {
      assert forall t: nat :: t < |s.timers| && r.timers[t].status.Armed? ==> r.timers[t] == s.timers[t];
    } else if step.RunCallback? {
      assert forall t: nat :: t < |s.timers| && r.timers[t].status.Armed? ==> r.timers[t] == s.timers[t];
    }
  }

  ghost predicate NoneOvertaken<K, F>(s: System<K, F>, steps: seq<Step<K, F>>, key: K)
    decreases |steps|
  {
    steps != [] && Enabled(s, steps[0]) ==>
      !Overtaken(s, steps[0], key) && NoneOvertaken(Next(s, steps[0]), steps[1..], key)
  }

  lemma {:induction false} LeadsOneArmed<K, F>(s: System<K, F>, steps: seq<Step<K, F>>, r: System<K, F>, key: K)
    requires TimersInOrder(s, key) && OneArmed(s, key) && Leads(s, steps, r) && NoneOvertaken(s, steps, key)
    ensures OneArmed(r, key)
    decreases |steps|
  {
    if steps != [] {
      SecondTimerIff(s, steps[0], key);
      LeadsInOrder(s, [steps[0]], Next(s, steps[0]), key);
      LeadsOneArmed(Next(s, steps[0]), steps[1..], r, key);
    }
  }

  /** In a run where no callback of the key is overtaken, each file stops the timer
      before it: at most one timer of the key is ever armed. */
  lemma AtMostOneArmed<K, F>(steps: seq<Step<K, F>>, r: System<K, F>, key: K, t: nat, u: nat)
    requires Leads(Start<K, F>(), steps, r) && NoneOvertaken(Start<K, F>(), steps, key)
    requires t < |r.timers| && r.timers[t].key == key && r.timers[t].status.Armed?
    requires u < |r.timers| && r.timers[u].key == key && r.timers[u].status.Armed?
    ensures t == u
  {
    LeadsOneArmed(Start<K, F>(), steps, r, key);
  }

  /** Otherwise there can be two: the first timer fires, a second file comes
      before its callback runs, and the third file finds no timer to stop. */
  lemma TwoTimersArmed<K, F>(key: K, file: F) returns (steps: seq<Step<K, F>>, r: System<K, F>)
    ensures Leads(Start<K, F>(), steps, r)
    ensures r.timers == [Timer(key, Over), Timer(key, Armed), Timer(key, Armed)]
    ensures r.taken == [Batch(key, [file, file])] && PendingFiles(r.handler, key) == [file]
  {
    var s0 := Start<K, F>();
    var s1 := Next(s0, Receive(key, file));
    var s2 := Next(s1, Fire(0));
    var s3 := Next(s2, Receive(key, file));
    var s4 := Next(s3, RunCallback(0));
    r := Next(s4, Receive(key, file));
    steps := [Receive(key, file), Fire(0), Receive(key, file), RunCallback(0), Receive(key, file)];
    assert PendingFiles(s3.handler, key) == [file, file] && PendingFiles(r.handler, key) == [] + [file];
    assert Leads(r, steps[1..][1..][1..][1..][1..], r);
    assert Leads(s4, steps[1..][1..][1..][1..], r);
    assert Leads(s3, steps[1..][1..][1..], r);
    assert Leads(s2, steps[1..][1..], r);
    assert Leads(s1, steps[1..], r);
    assert Leads(s0, steps, r);
  }

  // ------------------------------------------------- the nested handler

  /** Two levels of maps: chat, then user. */
  type Nested<V> = map<int, map<nat, V>>

  datatype ChatUser = ChatUser(chat: int, user: nat)

  predicate Has<V>(nested: Nested<V>, k: ChatUser) {
    k.chat in nested && k.user in nested[k.chat]
  }

  function Keys<V>(nested: Nested<V>): (keys: set<ChatUser>)
    ensures forall k :: k in keys <==> Has(nested, k)
  {
    set c, u | c in nested && u in nested[c] :: ChatUser(c, u)
  }

  function Flat<V>(nested: Nested<V>): (flat: map<ChatUser, V>)
    ensures forall k :: k in flat <==> Has(nested, k)
    ensures forall k :: k in flat ==> Has(nested, k) && flat[k] == nested[k.chat][k.user]
  {
    map k | k in Keys(nested) :: nested[k.chat][k.user]
  }

  ghost predicate NoEmptyChat<V>(nested: Nested<V>) {
    forall chat :: chat in nested ==> nested[chat] != map[]
  }

  function Put<V>(nested: Nested<V>, chat: int, user: nat, v: V): Nested<V> {
    nested[chat := (if chat in nested then nested[chat] else map[])[user := v]]
  }

  /** Deletes the user's entry, then the chat's if nothing is left in it. */
  function Delete<V>(nested: Nested<V>, chat: int, user: nat): Nested<V> {
    if chat !in nested then nested
    else
      var inner := nested[chat] - {user};
      if inner == map[] then nested - {chat} else nested[chat := inner]
  }

  lemma PutHas<V>(nested: Nested<V>, chat: int, user: nat, v: V, k: ChatUser)
    ensures var r := Put(nested, chat, user, v);
            && (Has(r, k) <==> k == ChatUser(chat, user) || Has(nested, k))
            && (Has(r, k) ==> r[k.chat][k.user] == if k == ChatUser(chat, user) then v else nested[k.chat][k.user])
  {
  }

  lemma PutIsFlat<V>(nested: Nested<V>, chat: int, user: nat, v: V)
    ensures Flat(Put(nested, chat, user, v)) == Flat(nested)[ChatUser(chat, user) := v]
  {
    var flat, updated := Flat(Put(nested, chat, user, v)), Flat(nested)[ChatUser(chat, user) := v];
    forall k ensures k in flat <==> k in updated {
      PutHas(nested, chat, user, v, k);
    }
    forall k | k in flat ensures flat[k] == updated[k] {
      PutHas(nested, chat, user, v, k);
    }
  }

  lemma PutIsTidy<V>(nested: Nested<V>, chat: int, user: nat, v: V)
    requires NoEmptyChat(nested)
    ensures NoEmptyChat(Put(nested, chat, user, v))
  {
    assert user in Put(nested, chat, user, v)[chat];
  }

  lemma DeleteHas<V>(nested: Nested<V>, chat: int, user: nat, k: ChatUser)
    ensures var r := Delete(nested, chat, user);
            && (Has(r, k) <==> k != ChatUser(chat, user) && Has(nested, k))
            && (Has(r, k) ==> r[k.chat][k.user] == nested[k.chat][k.user])
  {
    if chat in nested && k.chat == chat {
      var inner := nested[chat] - {user};
      assert k.user in inner <==> k.user in nested[chat] && k.user != user;
    }
  }

  lemma DeleteIsFlat<V>(nested: Nested<V>, chat: int, user: nat)
    ensures Flat(Delete(nested, chat, user)) == Flat(nested) - {ChatUser(chat, user)}
  {
    var flat, rest := Flat(Delete(nested, chat, user)), Flat(nested) - {ChatUser(chat, user)};
    forall k ensures k in flat <==> k in rest {
      DeleteHas(nested, chat, user, k);
    }
    forall k | k in flat ensures flat[k] == rest[k] {
      DeleteHas(nested, chat, user, k);
    }
  }

  /** Whatever state it finds, a deletion leaves no empty map for its chat. */
  lemma DeleteIsTidy<V>(nested: Nested<V>, chat: int, user: nat)
    ensures chat in Delete(nested, chat, user) ==> Delete(nested, chat, user)[chat] != map[]
    ensures NoEmptyChat(nested) ==> NoEmptyChat(Delete(nested, chat, user))
  {
  }

  /** The machine over nested maps. */
  datatype NestedSystem<!F> = NestedSystem(
    groups: Nested<seq<F>>,
    current: Nested<nat>,
    timers: seq<Timer<ChatUser>>,
    received: seq<Arrival<ChatUser, F>>,
    taken: seq<Batch<ChatUser, F>>)

  function NestedStart<F>(): NestedSystem<F> {
    NestedSystem(map[], map[], [], [], [])
  }

  function Flattened<F>(n: NestedSystem<F>): System<ChatUser, F> {
    System(Handler(Flat(n.groups), Flat(n.current)), n.timers, n.received, n.taken)
  }

  function NestedPending<F>(groups: Nested<seq<F>>, k: ChatUser): seq<F> {
    if k.chat in groups && k.user in groups[k.chat] then groups[k.chat][k.user] else []
  }

  /** Files are put into the inner maps and callbacks delete from them; whether a
      step can be taken depends on the timers alone. */
  function NestedNext<F>(n: NestedSystem<F>, step: Step<ChatUser, F>): NestedSystem<F>
    requires Enabled(Flattened(n), step)
  {
    match step
    case Receive(k, file) =>
      var stopped := if Has(n.current, k) then Stop(n.timers, n.current[k.chat][k.user]) else n.timers;
      NestedSystem(Put(n.groups, k.chat, k.user, NestedPending(n.groups, k) + [file]),
                   Put(n.current, k.chat, k.user, |n.timers|),
                   stopped + [Timer(k, Armed)], n.received + [Arrival(k, file)], n.taken)
    case Fire(t) => n.(timers := SetStatus(n.timers, t, Fired))
    case RunCallback(t) =>
      var k := n.timers[t].key;
      var files := NestedPending(n.groups, k);
      NestedSystem(Delete(n.groups, k.chat, k.user), Delete(n.current, k.chat, k.user),
                   SetStatus(n.timers, t, Over), n.received,
                   if files == [] then n.taken else n.taken + [Batch(k, files)])
  }

  ghost predicate NestedLeads<F>(n: NestedSystem<F>, steps: seq<Step<ChatUser, F>>, r: NestedSystem<F>)
    decreases |steps|
  {
    if steps == [] then n == r
    else Enabled(Flattened(n), steps[0]) && NestedLeads(NestedNext(n, steps[0]), steps[1..], r)
  }

  ghost predicate TidySystem<F>(n: NestedSystem<F>) {
    NoEmptyChat(n.groups) && NoEmptyChat(n.current)
  }

  lemma WithFileIsFlat<F>(groups: Nested<seq<F>>, current: Nested<nat>, chat: int, user: nat, file: F, timer: nat)
    ensures var files := NestedPending(groups, ChatUser(chat, user)) + [file];
            Handler(Flat(Put(groups, chat, user, files)), Flat(Put(current, chat, user, timer)))
            == WithFile(Handler(Flat(groups), Flat(current)), ChatUser(chat, user), file, timer)
  {
    PutIsFlat(groups, chat, user, NestedPending(groups, ChatUser(chat, user)) + [file]);
    PutIsFlat(current, chat, user, timer);
  }

  lemma NestedReceiveIsFlat<F>(n: NestedSystem<F>, chat: int, user: nat, file: F)
    ensures var step := Receive(ChatUser(chat, user), file); Flattened(NestedNext(n, step)) == Next(Flattened(n), step)
  {
    WithFileIsFlat(n.groups, n.current, chat, user, file, |n.timers|);
  }

  lemma NestedReceiveIsTidy<F>(n: NestedSystem<F>, k: ChatUser, file: F)
    ensures TidySystem(n) ==> TidySystem(NestedNext(n, Receive(k, file)))
  {
    if TidySystem(n) {
      PutIsTidy(n.groups, k.chat, k.user, NestedPending(n.groups, k) + [file]);
      PutIsTidy(n.current, k.chat, k.user, |n.timers|);
    }
  }

  lemma NestedCallbackIsFlat<F>(n: NestedSystem<F>, t: nat)
    requires Enabled(Flattened(n), RunCallback(t))
    ensures Flattened(NestedNext(n, RunCallback(t))) == Next(Flattened(n), RunCallback(t))
    ensures TidySystem(n) ==> TidySystem(NestedNext(n, RunCallback(t)))
  {
    var k := n.timers[t].key;
    assert k == ChatUser(k.chat, k.user);
    DeleteIsFlat(n.groups, k.chat, k.user);
    DeleteIsFlat(n.current, k.chat, k.user);
    DeleteIsTidy(n.groups, k.chat, k.user);
    DeleteIsTidy(n.current, k.chat, k.user);
  }

  /** A step on the nested maps is a step on the flattened ones. */
  lemma NestedStepIsFlat<F>(n: NestedSystem<F>, step: Step<ChatUser, F>)
    requires Enabled(Flattened(n), step)
    ensures Flattened(NestedNext(n, step)) == Next(Flattened(n), step)
    ensures TidySystem(n) ==> TidySystem(NestedNext(n, step))
  {
    match step {
      case Receive(k, file) =>
        NestedReceiveIsFlat(n, k.chat, k.user, file);
        NestedReceiveIsTidy(n, k, file);
      case Fire(_) =>
      case RunCallback(t) => NestedCallbackIsFlat(n, t);
    }
  }

  lemma {:induction false} NestedLeadsIsFlat<F>(n: NestedSystem<F>, steps: seq<Step<ChatUser, F>>, r: NestedSystem<F>)
    requires NestedLeads(n, steps, r) && TidySystem(n)
    ensures Leads(Flattened(n), steps, Flattened(r)) && TidySystem(r)
    decreases |steps|
  {
    if steps != [] {
      NestedStepIsFlat(n, steps[0]);
      NestedLeadsIsFlat(NestedNext(n, steps[0]), steps[1..], r);
    }
  }

  /** What holds of the flat machine holds of the nested one, per chat and user;
      and no chat is ever left with an empty map. */
  lemma NoFileLostNested<F>(steps: seq<Step<ChatUser, F>>, r: NestedSystem<F>, k: ChatUser)
    requires NestedLeads(NestedStart<F>(), steps, r)
    ensures ReceivedFor(r.received, k) == TakenFor(r.taken, k) + NestedPending(r.groups, k)
    ensures NestedPending(r.groups, k) != [] ==>
              Has(r.current, k) && Live(r.timers, r.current[k.chat][k.user], k)
    ensures TidySystem(r)
  {
    NestedLeadsIsFlat(NestedStart<F>(), steps, r);
    assert Flattened(NestedStart<F>()) == Start<ChatUser, F>();
    NoFileLost(steps, Flattened(r), k);
  }

  /** Its methods do to the flattened maps exactly what the flat handler's do, as
      the steps above do; and no chat is left empty. */
  class WatchMediaGroups<F> {
    var groups: Nested<seq<F>>
    var timers: Nested<nat>

    function State(): Handler<ChatUser, F>
      reads this
    {
      Handler(Flat(groups), Flat(timers))
    }

    ghost predicate Tidy()
      reads this
    {
      NoEmptyChat(groups) && NoEmptyChat(timers)
    }

    constructor ()
      ensures State() == Handler(map[], map[]) && Tidy()
    {
      groups, timers := map[], map[];
    }

    method AddFile(chat: int, user: nat, file: F, timer: nat) returns (toStop: set<nat>)
      requires Tidy()
      modifies this
      ensures Tidy()
      ensures State() == WithFile(old(State()), ChatUser(chat, user), file, timer)
      ensures toStop == if ChatUser(chat, user) in old(State()).timers then {old(State()).timers[ChatUser(chat, user)]} else {}
    {
      if chat in timers && user in timers[chat] {
        toStop := {timers[chat][user]};
      } else {
        toStop := {};
      }
      var before := if chat in groups && user in groups[chat] then groups[chat][user] else [];
      PutIsFlat(groups, chat, user, before + [file]);
      PutIsTidy(groups, chat, user, before + [file]);
      PutIsFlat(timers, chat, user, timer);
      PutIsTidy(timers, chat, user, timer);
      groups := Put(groups, chat, user, before + [file]);
      timers := Put(timers, chat, user, timer);
    }

    method Callback(chat: int, user: nat) returns (files: seq<F>)
      requires Tidy()
      modifies this
      ensures Tidy()
      ensures State() == Without(old(State()), ChatUser(chat, user))
      ensures files == PendingFiles(old(State()), ChatUser(chat, user))
    {
      files := if chat in groups && user in groups[chat] then groups[chat][user] else [];
      DeleteIsFlat(groups, chat, user);
      DeleteIsTidy(groups, chat, user);
      DeleteIsFlat(timers, chat, user);
      DeleteIsTidy(timers, chat, user);
      groups := Delete(groups, chat, user);
      timers := Delete(timers, chat, user);
    }
  }
}
