/**
 What the application does, turn by turn: which module takes a message, how a transaction's messages
 follow one another, and what its response is made of.
 */
module AppTraces {
  import opened Bytes
  import opened AvlOrder
  import opened Store
  import opened AppModel
  import opened AppProofs

  /** One list after another. */
  function Flat(lists: seq<seq<Event>>): seq<Event> {
    if lists == [] then [] else lists[0] + Flat(lists[1..])
  }

  lemma {:induction false} FlatMore(lists: seq<seq<Event>>, last: seq<Event>)
    ensures Flat(lists + [last]) == Flat(lists) + last
  {
    if lists == [] {
      assert (lists + [last])[1..] == [];
      assert last + [] == last == [] + last;
    } else {
      FlatMore(lists[1..], last);
      assert (lists + [last])[1..] == lists[1..] + [last];
      assert lists[0] + (Flat(lists[1..]) + last) == lists[0] + Flat(lists[1..]) + last;
    }
  }

  // ---------- one write ----------

  /** Each write after the ones before it sets or deletes its one key in the pending map of its one
      store, and does nothing else. */
  lemma WritesAreMapUpdates(stores: seq<StoreModel>, writes: seq<Write>, w: Write)
    requires AllWellFormed(stores)
    ensures ApplyWrites(stores, []) == stores
    ensures var before, after := ApplyWrites(stores, writes), ApplyWrites(stores, writes + [w]);
      && |after| == |before|
      && (forall i :: 0 <= i < |before| && i != w.at ==> after[i] == before[i])
      && (w.at < |before| ==>
            && after[w.at] == before[w.at].(pending := after[w.at].pending)
            && Contents(after[w.at].pending)
               == if w.SetAt? then Contents(before[w.at].pending)[w.path := w.value]
                  else Contents(before[w.at].pending) - {w.path})
  {
    assert (writes + [w])[..|writes + [w]| - 1] == writes;
    var before := ApplyWrites(stores, writes);
    if w.at < |before| { WriteIsMapUpdate(before[w.at], w); }
  }

  lemma WriteIsMapUpdate(m: StoreModel, w: Write)
    requires WellFormedStore(m)
    ensures Contents(StepStore(m, OpOf(w)).pending)
         == if w.SetAt? then Contents(m.pending)[w.path := w.value] else Contents(m.pending) - {w.path}
  {
    StepRefines(m, OpOf(w));
  }

  // ---------- one message ----------

  /** From each state to the next one module has had its turn with the message, in order. */
  ghost predicate TakeTurns(modules: seq<Module>, states: seq<Reached>, message: Message, signer: Account) {
    && 1 <= |states| <= |modules| + 1
    && forall k :: 0 <= k < |states| - 1 ==> TakesTurn(modules[k], states[k], states[k + 1], message, signer)
  }

  ghost predicate TakesTurn(m: Module, before: Reached, after: Reached, message: Message, signer: Account) {
    && AllWellFormed(before.stores)
    && var effect := m.deliver(ImagesOf(before.stores), before.memory, message, signer);
       after == Reached(ApplyWrites(before.stores, effect.writes), effect.memory)
  }

  ghost predicate SaysNotHandled(m: Module, at: Reached, message: Message, signer: Account) {
    AllWellFormed(at.stores) && m.deliver(ImagesOf(at.stores), at.memory, message, signer).response.NotHandled?
  }

  /** The modules say in order that the message is not theirs, up to the first that does not, whose
      answer is the outcome; if all say so, that is. Each leaves its writes behind. */
  lemma MessageIsTaken(modules: seq<Module>, stores: seq<StoreModel>, memory: Memory, message: Message, signer: Account) returns (states: seq<Reached>)
    requires AllWellFormed(stores)
    ensures TakeTurns(modules, states, message, signer) && states[0] == Reached(stores, memory)
    ensures var n, d := |states| - 1, DeliverMsgFrom(modules, stores, memory, 0, message, signer);
      && Reached(d.stores, d.memory) == states[n]
      && (forall k :: 0 <= k < n - 1 ==> SaysNotHandled(modules[k], states[k], message, signer))
      && (d.response.NotHandled? <==> n == |modules| && (n > 0 ==> SaysNotHandled(modules[n - 1], states[n - 1], message, signer)))
      && (!d.response.NotHandled? ==>
            n > 0 && d.response == modules[n - 1].deliver(ImagesOf(states[n - 1].stores), states[n - 1].memory, message, signer).response)
  {
    var now, i := Reached(stores, memory), 0;
    states := [now];
    while i < |modules|
      invariant i <= |modules| && |states| == i + 1 && states[i] == now && AllWellFormed(now.stores)
      invariant states[0] == Reached(stores, memory) && TakeTurns(modules, states, message, signer)
      invariant forall k :: 0 <= k < i ==> SaysNotHandled(modules[k], states[k], message, signer)
      invariant DeliverMsgFrom(modules, stores, memory, 0, message, signer)
             == DeliverMsgFrom(modules, now.stores, now.memory, i, message, signer)
    {
      var effect := modules[i].deliver(ImagesOf(now.stores), now.memory, message, signer);
      var next := Reached(ApplyWrites(now.stores, effect.writes), effect.memory);
      DeliverStep(modules, now.stores, now.memory, i, message, signer, effect);
      assert TakesTurn(modules[i], now, next, message, signer);
      states := states + [next];
      if !effect.response.NotHandled? {
        return;
      }
      now, i := next, i + 1;
    }
    DeliverNone(modules, now.stores, now.memory, message, signer);
  }

  // ---------- one transaction ----------

  /** Each message is delivered where the one before left off, and every one but the last delivered
      is handled; delivering stops before the end only at one that is not. */
  ghost predicate Delivers(modules: seq<Module>, states: seq<Reached>, answers: seq<Response>, messages: seq<Message>, signer: Account) {
    && |states| == |answers| + 1 && |answers| <= |messages|
    && (forall k :: 0 <= k < |answers| ==> DeliversOne(modules, states[k], states[k + 1], answers[k], messages[k], signer))
    && (forall k :: 0 <= k < |answers| - 1 ==> answers[k].Handled?)
    && (|answers| < |messages| ==> answers != [] && !answers[|answers| - 1].Handled?)
  }

  ghost predicate DeliversOne(modules: seq<Module>, before: Reached, after: Reached, answer: Response, message: Message, signer: Account) {
    && AllWellFormed(before.stores)
    && DeliverMsgFrom(modules, before.stores, before.memory, 0, message, signer) == Delivered(after.stores, after.memory, answer)
  }

  predicate AllHandled(answers: seq<Response>) {
    forall k :: 0 <= k < |answers| ==> answers[k].Handled?
  }

  function EventsOf(answers: seq<Response>): seq<seq<Event>>
    requires AllHandled(answers)
  {
    seq(|answers|, k requires 0 <= k < |answers| => answers[k].events)
  }

  lemma {:induction false} MessagesAreDelivered(modules: seq<Module>, stores: seq<StoreModel>, memory: Memory, messages: seq<Message>, signer: Account)
    returns (states: seq<Reached>, answers: seq<Response>)
    requires AllWellFormed(stores)
    ensures Delivers(modules, states, answers, messages, signer) && states[0] == Reached(stores, memory)
    ensures var d := DeliverAll(modules, stores, memory, messages, signer);
      && Reached(d.stores, d.memory) == states[|states| - 1]
      && (d.response.Handled? <==> |answers| == |messages| && AllHandled(answers))
      && (d.response.Handled? ==> d.response == Handled(Flat(EventsOf(answers))))
  {
    if messages == [] {
      states, answers := [Reached(stores, memory)], [];
    } else {
      var front, last := messages[..|messages| - 1], messages[|messages| - 1];
      states, answers := MessagesAreDelivered(modules, stores, memory, front, signer);
      var before := DeliverAll(modules, stores, memory, front, signer);
      if before.response.Handled? {
        var d := DeliverMsgFrom(modules, before.stores, before.memory, 0, last, signer);
        DeliversMore(modules, states, answers, messages, signer, d);
        if d.response.Handled? { EventsMore(answers, d.response); }
        states, answers := states + [Reached(d.stores, d.memory)], answers + [d.response];
      }
    }
  }

  /** When all messages but the last have been handled, the last is delivered too. */
  lemma DeliversMore(modules: seq<Module>, states: seq<Reached>, answers: seq<Response>, messages: seq<Message>, signer: Account, d: Delivered)
    requires messages != [] && Delivers(modules, states, answers, messages[..|messages| - 1], signer)
    requires |answers| == |messages| - 1 && AllHandled(answers) && AllWellFormed(states[|answers|].stores)
    requires d == DeliverMsgFrom(modules, states[|answers|].stores, states[|answers|].memory, 0, messages[|messages| - 1], signer)
    ensures Delivers(modules, states + [Reached(d.stores, d.memory)], answers + [d.response], messages, signer)
  {
    assert DeliversOne(modules, states[|answers|], Reached(d.stores, d.memory), d.response, messages[|answers|], signer);
  }

  lemma EventsMore(answers: seq<Response>, last: Response)
    requires AllHandled(answers) && last.Handled?
    ensures Flat(EventsOf(answers + [last])) == Flat(EventsOf(answers)) + last.events
  {
    FlatMore(EventsOf(answers), last.events);
    assert EventsOf(answers + [last]) == EventsOf(answers) + [last.events];
  }

  /** Every transaction's response: code 1 exactly if it does not decode; code 0 exactly if it
      decodes, has a signer and a message, and all its messages are handled; code 2 otherwise. With
      code 0 come the events of its messages, in order, and with any other code none. A transaction
      that does not reach the modules changes nothing. */
  lemma TxResponses(c: Config, a: AppState, tx: Tx) returns (states: seq<Reached>, answers: seq<Response>)
    requires WellFormedApp(c, a)
    ensures var messages, signer := if tx.Tx? then tx.messages else [], if tx.Tx? then tx.signer else [];
      Delivers(c.modules, states, answers, messages, signer) && states[0] == Reached(a.stores, a.memory)
    ensures var r := TxResponseOf(c, a, tx);
      && (r.code == 1 <==> tx.Undecodable?)
      && (r.code == 0 <==> tx.Tx? && tx.messages != [] && |answers| == |tx.messages| && AllHandled(answers))
      && r.code <= 2
      && r.events == if r.code == 0 then Flat(EventsOf(answers)) else []
    ensures tx.Undecodable? || tx.BadSigner? || tx.messages == [] ==> DeliverTx(c, a, tx) == a
    ensures tx.Tx? && tx.messages != [] ==>
      var end, r := states[|answers|], DeliverTx(c, a, tx);
      && r.memory == end.memory && |r.stores| == |end.stores| == |a.stores|
      && forall i :: 0 <= i < |r.stores| ==>
           && r.stores[i].pending == r.stores[i].staged
           && r.stores[i].pending == if TxResponseOf(c, a, tx).code == 0 then end.stores[i].pending else a.stores[i].staged
  {
    if Reaches(tx) { TxAtomic(c, a, tx); }
    if tx.Tx? {
      states, answers := MessagesAreDelivered(c.modules, a.stores, a.memory, tx.messages, tx.signer);
    } else {
      states, answers := [Reached(a.stores, a.memory)], [];
    }
  }

  // ---------- genesis and the beginning of a block ----------

  /** Genesis goes through the modules in order, each starting where the one before left off; the main
      store is left alone. */
  lemma GenesisInOrder(c: Config, a: AppState, genesis: Bytes) returns (states: seq<Reached>)
    requires WellFormedApp(c, a)
    ensures |states| == |c.modules| + 1 && states[0] == Reached(a.stores, a.memory)
    ensures forall k :: 0 <= k < |c.modules| ==> Initialises(c.modules[k], states[k], states[k + 1], genesis)
    ensures StepApp(c, a, Call.InitChain(genesis)) == AppState(a.main, states[|c.modules|].stores, states[|c.modules|].memory)
  {
    states := InitTurns(c.modules, a.stores, a.memory, genesis);
  }

  /** So does the beginning of a block, and its events are the modules', in order. */
  lemma BlockBeginsInOrder(c: Config, a: AppState, header: Bytes) returns (states: seq<Reached>, said: seq<seq<Event>>)
    requires WellFormedApp(c, a)
    ensures |states| == |c.modules| + 1 == |said| + 1 && states[0] == Reached(a.stores, a.memory)
    ensures forall k :: 0 <= k < |c.modules| ==> Begins(c.modules[k], states[k], states[k + 1], said[k], header)
    ensures StepApp(c, a, Call.BeginBlock(header)) == AppState(a.main, states[|c.modules|].stores, states[|c.modules|].memory)
    ensures BeginEventsFrom(c.modules, a.stores, a.memory, 0, header) == Flat(said)
  {
    states, said := BeginTurns(c.modules, a.stores, a.memory, header);
  }

  lemma InitTurns(modules: seq<Module>, stores: seq<StoreModel>, memory: Memory, genesis: Bytes) returns (states: seq<Reached>)
    requires AllWellFormed(stores)
    ensures |states| == |modules| + 1 && states[0] == Reached(stores, memory)
    ensures forall k :: 0 <= k < |modules| ==> Initialises(modules[k], states[k], states[k + 1], genesis)
    ensures InitFrom(modules, stores, memory, 0, genesis) == states[|modules|]
  {
    var i := 0;
    states := [Reached(stores, memory)];
    while i < |modules|
      invariant i <= |modules| && |states| == i + 1 && states[0] == Reached(stores, memory) && AllWellFormed(states[i].stores)
      invariant forall k :: 0 <= k < i ==> Initialises(modules[k], states[k], states[k + 1], genesis)
      invariant InitFrom(modules, stores, memory, 0, genesis) == InitFrom(modules, states[i].stores, states[i].memory, i, genesis)
    {
      var now := states[i];
      var done := modules[i].init(ImagesOf(now.stores), now.memory, genesis);
      InitStep(modules, now.stores, now.memory, i, genesis);
      states, i := states + [Reached(ApplyWrites(now.stores, done.writes), done.memory)], i + 1;
    }
    InitNone(modules, states[i].stores, states[i].memory, genesis);
  }

  ghost predicate Initialises(m: Module, before: Reached, after: Reached, genesis: Bytes) {
    && AllWellFormed(before.stores)
    && var done := m.init(ImagesOf(before.stores), before.memory, genesis);
       after == Reached(ApplyWrites(before.stores, done.writes), done.memory)
  }

  lemma BeginTurns(modules: seq<Module>, stores: seq<StoreModel>, memory: Memory, header: Bytes) returns (states: seq<Reached>, said: seq<seq<Event>>)
    requires AllWellFormed(stores)
    ensures |states| == |modules| + 1 == |said| + 1 && states[0] == Reached(stores, memory)
    ensures forall k :: 0 <= k < |modules| ==> Begins(modules[k], states[k], states[k + 1], said[k], header)
    ensures BeginFrom(modules, stores, memory, 0, header) == states[|modules|]
    ensures BeginEventsFrom(modules, stores, memory, 0, header) == Flat(said)
  {
    var i := 0;
    states, said := [Reached(stores, memory)], [];
    while i < |modules|
      invariant i <= |modules| && |states| == i + 1 == |said| + 1 && states[0] == Reached(stores, memory) && AllWellFormed(states[i].stores)
      invariant forall k :: 0 <= k < i ==> Begins(modules[k], states[k], states[k + 1], said[k], header)
      invariant BeginFrom(modules, stores, memory, 0, header) == BeginFrom(modules, states[i].stores, states[i].memory, i, header)
      invariant BeginEventsFrom(modules, stores, memory, 0, header)
             == Flat(said) + BeginEventsFrom(modules, states[i].stores, states[i].memory, i, header)
    {
      var now := states[i];
      var begun := modules[i].beginBlock(ImagesOf(now.stores), now.memory, header);
      var next := Reached(ApplyWrites(now.stores, begun.writes), begun.memory);
      BeginTurn(modules, now, i, said, header);
      assert Begins(modules[i], now, next, begun.events, header);
      states, said, i := states + [next], said + [begun.events], i + 1;
    }
    BeginNone(modules, states[i].stores, states[i].memory, header);
  }

  /** One module's turn, with the events said so far. */
  lemma BeginTurn(modules: seq<Module>, now: Reached, i: nat, said: seq<seq<Event>>, header: Bytes)
    requires AllWellFormed(now.stores) && i < |modules|
    ensures var begun := modules[i].beginBlock(ImagesOf(now.stores), now.memory, header);
      var after := ApplyWrites(now.stores, begun.writes);
      && BeginFrom(modules, now.stores, now.memory, i, header) == BeginFrom(modules, after, begun.memory, i + 1, header)
      && Flat(said) + BeginEventsFrom(modules, now.stores, now.memory, i, header)
         == Flat(said + [begun.events]) + BeginEventsFrom(modules, after, begun.memory, i + 1, header)
  {
    var begun := modules[i].beginBlock(ImagesOf(now.stores), now.memory, header);
    var rest := BeginEventsFrom(modules, ApplyWrites(now.stores, begun.writes), begun.memory, i + 1, header);
    BeginStep(modules, now.stores, now.memory, i, header);
    FlatMore(said, begun.events);
    assert Flat(said) + (begun.events + rest) == (Flat(said) + begun.events) + rest;
  }

  ghost predicate Begins(m: Module, before: Reached, after: Reached, events: seq<Event>, header: Bytes) {
    && AllWellFormed(before.stores)
    && var begun := m.beginBlock(ImagesOf(before.stores), before.memory, header);
       after == Reached(ApplyWrites(before.stores, begun.writes), begun.memory) && events == begun.events
  }
}
