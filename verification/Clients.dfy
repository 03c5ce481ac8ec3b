/** Clients that keep every Task they ever passed in, were handed or were shown by a callback, and
    write to it whenever and however they like, while requests run side by side over one store. The
    array of items of a List is its elements: each is a Task that the client holds. A session is a
    sequence of moves: a step of a request, or a write to memory clients hold. */
module Clients {
  import opened TaskTypes
  import opened ResourceVersion
  import opened Strategy
  import opened StoreSpec
  import opened RegistrySpec
  import opened Protocol
  import opened Reduction
  import opened TaskHeap
  import opened StoreHeap
  import opened StrategyHeap
  import opened RegistryHeap

  datatype Words = Command | Args

  /** What one Task takes from another: the struct or a part of it, slices and labels shared. */
  datatype Part = Whole | ItsSpec | ItsStatus | ItsLabels | ItsWords(field: Words, source: Words)

  /** A write into what a Task refers to: its label map, or an element of a slice. */
  datatype Edit =
    | NewLabels(labels: map<string, string>)
    | NewWord(field: Words, at: nat, word: string)
    | NewCondition(at: nat, condition: Condition)

  /** A request's step, with the place of the object it submits, if it submits one: an index among
      the objects held, or just past them the copy it is shown, then a new object that shares its
      slices, or beyond that a new object. Or a new Task, a new value for one, a part of one
      assigned from another, or a write into one. Writes out of range do nothing. */
  datatype Move =
    | Act(action: Action, at: nat)
    | Make(t: Task)
    | Assign(to: nat, t: Task)
    | Share(to: nat, from: nat, part: Part)
    | Touch(to: nat, edit: Edit)

  /** The steps of requests among the moves. */
  function Acts(moves: seq<Move>): seq<Action> {
    if moves == [] then []
    else Acts(moves[..|moves| - 1]) +
         match moves[|moves| - 1] case Act(a, _) => [a] case _ => []
  }

  /** What one move means to the protocol. */
  ghost function AfterMove(lib: Library, w: World, m: Move): World {
    match m case Act(a, _) => Step(lib, w, a) case _ => w
  }

  lemma ActsStep(lib: Library, moves: seq<Move>, i: nat)
    requires i < |moves|
    ensures Run(lib, Acts(moves[..i + 1])) == AfterMove(lib, Run(lib, Acts(moves[..i])), moves[i])
  {
    var longer, shorter := Acts(moves[..i + 1]), Acts(moves[..i]);
    assert moves[..i + 1][..i] == moves[..i];
    if moves[i].Act? {
      assert longer == shorter + [moves[i].action];
      OneMoreStep(lib, shorter, moves[i].action);
    } else {
      assert longer == shorter;
    }
  }

  function WordsOf(v: TaskStruct, field: Words): array?<string> {
    match field case Command => v.spec.command case Args => v.spec.args
  }

  /** v after it has taken the part from u. */
  function Shared(part: Part, v: TaskStruct, u: TaskStruct): TaskStruct {
    match part
    case Whole => u
    case ItsSpec => v.(spec := u.spec)
    case ItsStatus => v.(status := u.status)
    case ItsLabels => v.(meta := v.meta.(labels := u.meta.labels))
    case ItsWords(Command, source) => v.(spec := v.spec.(command := WordsOf(u, source)))
    case ItsWords(Args, source) => v.(spec := v.spec.(args := WordsOf(u, source)))
  }

  /** The object that the edit writes to, if it is there and has that element. */
  function Target(v: TaskStruct, edit: Edit): object? {
    match edit
    case NewLabels(_) => v.meta.labels
    case NewWord(field, at, _) =>
      var a := WordsOf(v, field); if a != null && at < a.Length then a else null
    case NewCondition(at, _) =>
      var a := v.status.conditions; if a != null && at < a.Length then a else null
  }

  /** The edit has been made to what v refers to, which whoever shares it sees. */
  twostate predicate Edited(v: TaskStruct, edit: Edit)
    requires Target(v, edit) != null
    reads Target(v, edit)
  {
    match edit
    case NewLabels(labels) => v.meta.labels.entries == labels
    case NewWord(field, at, word) => WordsOf(v, field)[..] == old(WordsOf(v, field)[..])[at := word]
    case NewCondition(at, condition) => v.status.conditions[..] == old(v.status.conditions[..])[at := condition]
  }

  /** A request between its two store calls, with the objects it carries. */
  datatype Flight =
    | Writing(call: Call, write: Write)
    | Deleting(call: Call, key: Key)
    | Gathering(call: Call, items: seq<TaskStruct>)

  /** p is a request c about to carry out i. */
  ghost predicate Carries(p: Pending, c: Call, i: Intent) {
    && (if i.creates then p.PendingCreate? else p.PendingUpdate?)
    && p.call == c && p.key == i.key && p.draft.task == i.task
  }

  /** The protocol's view of a request in flight is what the request carries. */
  ghost predicate Says(f: Flight, p: Pending)
    reads if f.Writing? then Footprint(f.write.obj) else {}
  {
    match f
    case Writing(c, write) => Carries(p, c, WriteValue(write))
    case Deleting(c, key) => p.PendingDelete? && p.call == c && p.key == key
    case Gathering(c, items) => p.PendingList? && p.call == c && |items| == |p.items|
  }

  /** The objects of requests in flight are the clients', even the slices of unfinished Lists. */
  ghost predicate FlightWithin(f: Flight, reach: Reach) {
    match f
    case Writing(_, write) => write.obj in reach.held
    case Deleting(_, _) => true
    case Gathering(_, items) => forall t :: t in items ==> Refs(t) <= reach.memory
  }

  ghost predicate FlightsWithin(flights: map<nat, Flight>, reach: Reach) {
    forall id :: id in flights ==> FlightWithin(flights[id], reach)
  }

  ghost predicate FlightsSay(flights: map<nat, Flight>, pending: map<nat, Pending>, reach: Reach)
    requires FlightsWithin(flights, reach)
    requires Sound(reach)
    reads reach.memory
  {
    && flights.Keys == pending.Keys
    && forall id :: id in flights ==> Says(flights[id], pending[id])
  }

  lemma FlightsSayWith(flights: map<nat, Flight>, pending: map<nat, Pending>, reach: Reach,
                       id: nat, f: Flight, p: Pending)
    requires Sound(reach) && FlightsWithin(flights, reach) && FlightWithin(f, reach)
    requires FlightsSay(flights, pending, reach) && Says(f, p)
    ensures FlightsWithin(flights[id := f], reach) && FlightsSay(flights[id := f], pending[id := p], reach)
  {}

  lemma FlightsSayWithout(flights: map<nat, Flight>, pending: map<nat, Pending>, reach: Reach, id: nat)
    requires Sound(reach) && FlightsWithin(flights, reach) && FlightsSay(flights, pending, reach)
    ensures FlightsWithin(flights - {id}, reach) && FlightsSay(flights - {id}, pending - {id}, reach)
  {}

  /** The structs, made of memory, say what items has, each once, in the order of the keys. */
  ghost predicate ItemsSay(structs: seq<TaskStruct>, order: seq<Key>, items: map<Key, Task>, memory: set<object>)
    reads memory
  {
    && |structs| == |order| && Enumerates(order, items.Keys)
    && forall i :: 0 <= i < |structs| ==>
         Refs(structs[i]) <= memory && order[i] in items && TaskValue(structs[i]) == items[order[i]]
  }

  /** The same of Tasks in hand. */
  ghost predicate TasksSay(ps: seq<TaskObject>, order: seq<Key>, items: map<Key, Task>, memory: set<object>)
    reads memory
  {
    && |ps| == |order| && Enumerates(order, items.Keys)
    && forall i :: 0 <= i < |ps| ==>
         ps[i] in memory && Footprint(ps[i]) <= memory && order[i] in items && ObjectValue(ps[i]) == items[order[i]]
  }

  lemma ItemsSayWithin(items: seq<TaskStruct>, order: seq<Key>, matched: map<Key, Task>,
                       made: set<object>, memory: set<object>)
    requires ListHolds(items, order, matched, made) && Enumerates(order, matched.Keys) && made <= memory
    ensures ItemsSay(items, order, matched, memory)
  {}

  lemma TasksSayItems(ps: seq<TaskObject>, items: seq<TaskStruct>, order: seq<Key>, matched: map<Key, Task>,
                      small: set<object>, memory: set<object>)
    requires ItemsSay(items, order, matched, small) && small <= memory && |ps| == |items|
    requires forall i :: 0 <= i < |ps| ==> ps[i] in memory && ps[i].v == items[i]
    ensures TasksSay(ps, order, matched, memory)
  {}

  ghost predicate Say(ps: seq<TaskObject>, items: map<Key, Task>, memory: set<object>)
    reads memory
  {
    exists order :: TasksSay(ps, order, items, memory)
  }

  /** What each List was answered: its items by key. */
  ghost function ItemsOf(lists: seq<Listing>): seq<map<Key, Task>> {
    seq(|lists|, i requires 0 <= i < |lists| => lists[i].items)
  }

  /** The version each List was answered under. */
  function VersionsOf(lists: seq<Listing>): seq<string> {
    seq(|lists|, i requires 0 <= i < |lists| => lists[i].resourceVersion)
  }

  predicate Uses(p: TaskObject, o: object): (uses: bool)
    reads p
    ensures uses <==> o in Footprint(p)
  {
    o == p || o == p.v.meta.labels || o == p.v.spec.command || o == p.v.spec.args || o == p.v.status.conditions
  }

  /** o is part of an object that a request in flight is about to write. */
  predicate Lent(flights: map<nat, Flight>, o: object)
    reads set id | id in flights && flights[id].Writing? :: flights[id].write.obj
  {
    exists id :: id in flights && flights[id].Writing? && Uses(flights[id].write.obj, o)
  }

  // --- The protocol's steps, in the terms of one request ---

  /** From w to w', request c was answered with r and left the store as s; pending is in flight. */
  ghost predicate Answers(w: World, w': World, c: Call, s: State, r: Response, pending: map<nat, Pending>) {
    && w'.store == s && w'.served == w.served + [Served(c, r)] && w'.pending == pending
    && w'.lists == w.lists && |w.log| <= |w'.log|
  }

  /** From w to w', request id went into flight. */
  ghost predicate TakesOff(w: World, w': World, id: nat) {
    && w'.store == w.store && w'.served == w.served && w'.lists == w.lists && w'.log == w.log
    && id in w'.pending && w'.pending == w.pending[id := w'.pending[id]]
  }

  /** From w to w', a List was answered with items under version rv; pending is in flight. */
  ghost predicate HandsOut(w: World, w': World, items: map<Key, Task>, rv: Uint64, pending: map<nat, Pending>) {
    && w'.store == w.store && w'.served == w.served && w'.log == w.log && w'.pending == pending
    && ItemsOf(w'.lists) == ItemsOf(w.lists) + [items]
    && VersionsOf(w'.lists) == VersionsOf(w.lists) + [FormatRV(rv)]
  }

  /** From w to w', request c ran by itself. */
  ghost predicate RanAtOnce(lib: Library, w: World, w': World, c: Call) {
    var (s, r) := Handle(lib, w.store, c); Answers(w, w', c, s, r, w.pending)
  }

  ghost predicate UpdateBegun(lib: Library, w: World, w': World, id: nat, c: Call)
    requires c.UpdateCall?
  {
    match DecideUpdate(lib, w.store, c)
    case Err(e) => Answers(w, w', c, w.store, Failed(e), w.pending)
    case Ok(i) => TakesOff(w, w', id) && Carries(w'.pending[id], c, i)
  }

  ghost predicate DeleteBegun(w: World, w': World, id: nat, c: Call)
    requires c.DeleteCall?
  {
    match DecideDelete(w.store, c)
    case Err(e) => Answers(w, w', c, w.store, Failed(e), w.pending)
    case Ok(key) =>
      && TakesOff(w, w', id) && w'.pending[id].PendingDelete?
      && w'.pending[id].call == c && w'.pending[id].key == key
  }

  ghost predicate ListBegun(w: World, w': World, id: nat, c: Call)
    requires c.ListCall?
  {
    if c.fieldSelector then Answers(w, w', c, w.store, Failed(Unsupported), w.pending)
    else ListTaken(w, w', id, c, Matching(w.store.items, c.namespace, c.selector))
  }

  /** A List that matched something is answered, any other goes into flight. */
  ghost predicate ListTaken(w: World, w': World, id: nat, c: Call, matched: map<Key, Task>) {
    if MaxRV(matched) == 0
    then && TakesOff(w, w', id) && w'.pending[id].PendingList?
         && w'.pending[id].call == c && w'.pending[id].items == matched
    else HandsOut(w, w', matched, MaxRV(matched), w.pending)
  }

  lemma CreateOrGetBegins(lib: Library, w: World, id: nat, c: Call)
    requires c.CreateCall? || c.GetCall?
    ensures RanAtOnce(lib, w, BeginCall(lib, w, id, c), c)
  {}

  lemma UpdateBegins(lib: Library, w: World, id: nat, c: Call)
    requires c.UpdateCall?
    ensures UpdateBegun(lib, w, BeginCall(lib, w, id, c), id, c)
  {}

  lemma DeleteBegins(lib: Library, w: World, id: nat, c: Call)
    requires c.DeleteCall?
    ensures DeleteBegun(w, BeginCall(lib, w, id, c), id, c)
  {}

  lemma ListBegins(lib: Library, w: World, id: nat, c: Call)
    requires c.ListCall?
    ensures ListBegun(w, BeginCall(lib, w, id, c), id, c)
  {}

  lemma WriteFinishes(w: World, id: nat, c: Call, i: Intent)
    requires id in w.pending && Carries(w.pending[id], c, i)
    ensures var (s, r) := Carry(w.store, i);
            Answers(w, FinishCall(w, id), c, s, Reply(r), w.pending - {id})
  {}

  lemma DeleteFinishes(w: World, id: nat)
    requires id in w.pending && w.pending[id].PendingDelete?
    ensures var (s, r) := StoreDelete(w.store, w.pending[id].key);
            Answers(w, FinishCall(w, id), w.pending[id].call, s, Reply(r), w.pending - {id})
  {}

  /** A List in flight has matched nothing, up to 2^64 - 1 writes. */
  lemma ListFinishes(lib: Library, w: World, id: nat)
    requires id in w.pending && w.pending[id].PendingList?
    ensures HandsOut(w, FinishCall(w, id), w.pending[id].items, w.store.rv, w.pending - {id})
    ensures Inv(lib, w) ==> w.pending[id].items == map[]
  {
    var p := w.pending[id];
    if Inv(lib, w) {
      assert PendingOk(lib, w.log, p);
      MatchedNothing(p.snapshot, p.items);
    }
  }

  class Session {
    const rest: REST

    /** Patient clients leave alone what a request in flight is about to write. */
    const patient: bool

    /** Every Task a client holds. */
    var hands: seq<TaskObject>
    var flights: map<nat, Flight>

    /** The version of every List, as its client was told. */
    var versions: seq<string>

    ghost var reach: Reach

    /** What requests were answered, in order, and what Lists were: their items by key. */
    ghost var answers: seq<Response>
    ghost var listed: seq<map<Key, Task>>

    /** The Tasks held at some moment. The clients still hold them. */
    ghost var kept: seq<TaskObject>

    /** Nothing the clients can reach is part of the store. */
    ghost predicate SeparatedIn(reach: Reach)
      reads this`hands, this`flights, this`kept, rest.store, rest.store.Repr(), reach.memory
    {
      && rest.store.Valid()
      && Apart(reach, rest.store) && this !in reach.memory && this !in rest.store.Repr()
      && kept <= hands && Has(reach, hands) && FlightsWithin(flights, reach)
    }

    /** What was answered is what the protocol has answered in w. */
    ghost predicate Tallies(w: World)
      reads this`answers, this`listed, this`versions
    {
      answers == Responses(w.served) && listed == ItemsOf(w.lists) && versions == VersionsOf(w.lists)
    }

    /** Separated, and if the clients are patient, standing where the protocol stands in w. */
    ghost predicate StandsIn(w: World, reach: Reach)
      reads this`hands, this`flights, this`kept, this`answers, this`listed, this`versions
      reads rest.store, rest.store.Repr(), reach.memory
    {
      match w case World(s, pending, _, _, _, _) =>
        && SeparatedIn(reach)
        && (patient ==> s == rest.store.State() && Tallies(w) && FlightsSay(flights, pending, reach))
    }

    /** Nothing was answered. */
    twostate predicate Silent()
      reads this`answers, this`listed
    {
      answers == old(answers) && listed == old(listed)
    }

    /** The newest answer, if it is a Task, is the newest in hand and says what was answered. */
    ghost predicate AnswerHeld()
      reads this`answers, this`hands, if hands == [] then {} else Footprint(hands[|hands| - 1])
    {
      answers != [] && answers[|answers| - 1].Object? ==>
        hands != [] && ObjectValue(hands[|hands| - 1]) == answers[|answers| - 1].task
    }

    /** The newest Tasks in hand are the items of the newest List, as they were answered. */
    ghost predicate ListHeld()
      reads this`listed, this`hands, this`reach, reach.memory
    {
      && listed != [] && |listed[|listed| - 1]| <= |hands|
      && Say(hands[|hands| - |listed[|listed| - 1]|..], listed[|listed| - 1], reach.memory)
    }

    ghost predicate Separated()
      reads this, rest.store, rest.store.Repr(), reach.memory
    {
      SeparatedIn(reach)
    }

    ghost predicate Stands(w: World)
      reads this, rest.store, rest.store.Repr(), reach.memory
    {
      StandsIn(w, reach)
    }

    constructor (rest: REST, patient: bool)
      requires rest.store.Valid() && rest.store.Repr() == {} && rest.store.State() == EMPTY_STORE
      ensures this.rest == rest && this.patient == patient && reach == Reach({}, {})
      ensures Stands(START)
    {
      this.rest, this.patient := rest, patient;
      hands, kept, flights, reach := [], [], map[], Reach({}, {});
      answers, listed, versions := [], [], [];
    }

    /** Patient clients do not write to what they have lent to a request in flight. */
    predicate Withheld(o: object)
      reads this
      reads set id | id in flights && flights[id].Writing? :: flights[id].write.obj
    {
      patient && Lent(flights, o)
    }

    // --- Writes by clients ---

    /** p.v = v, for a struct of what the clients can reach. */
    method SetStruct(p: TaskObject, v: TaskStruct, ghost w: World)
      requires Stands(w)
      requires p in reach.held && Refs(v) <= reach.memory && !Withheld(p)
      modifies p
      ensures p.v == v
      ensures Stands(w) && rest.store.State() == old(rest.store.State())
    {
      p.v := v;
    }

    method SetLabels(m: LabelMap, entries: map<string, string>, ghost w: World)
      requires Stands(w)
      requires m in reach.memory && !Withheld(m)
      modifies m
      ensures m.entries == entries
      ensures Stands(w) && rest.store.State() == old(rest.store.State())
    {
      m.entries := entries;
    }

    method SetWord(a: array<string>, at: nat, word: string, ghost w: World)
      requires Stands(w)
      requires a in reach.memory && !Withheld(a) && at < a.Length
      modifies a
      ensures a[..] == old(a[..])[at := word]
      ensures Stands(w) && rest.store.State() == old(rest.store.State())
    {
      a[at] := word;
    }

    method SetCondition(a: array<Condition>, at: nat, condition: Condition, ghost w: World)
      requires Stands(w)
      requires a in reach.memory && !Withheld(a) && at < a.Length
      modifies a
      ensures a[..] == old(a[..])[at := condition]
      ensures Stands(w) && rest.store.State() == old(rest.store.State())
    {
      a[at] := condition;
    }

    /** The clients gain new memory, and keep Tasks made of it. */
    method Gain(ps: seq<TaskObject>, ghost reach': Reach, ghost w: World)
      requires Stands(w)
      requires Apart(reach', rest.store) && Covers(reach', reach) && this !in reach'.memory
      requires Has(reach', ps)
      modifies this`hands, this`reach
      ensures Stands(w) && reach == reach' && hands == old(hands) + ps
    {
      hands, reach := hands + ps, reach';
    }

    /** A new Task, which shares nothing with anything. */
    method MakeTask(t: Task, ghost w: World) returns (p: TaskObject)
      requires Stands(w)
      modifies this`hands, this`reach
      ensures Stands(w) && Widened(old(reach), reach)
      ensures p in reach.held && fresh(p) && ObjectValue(p) == t && hands == old(hands) + [p]
      ensures !Lent(flights, p)
    {
      p := Materialize(t);
      Gain([p], Holding(reach, p), w);
    }

    method AssignStruct(p: TaskObject, v: TaskStruct, ghost w: World)
      requires Stands(w)
      requires p in reach.held && Refs(v) <= reach.memory
      modifies p
      ensures p.v == if old(Withheld(p)) then old(p.v) else v
      ensures Stands(w) && rest.store.State() == old(rest.store.State())
    {
      if !Withheld(p) {
        SetStruct(p, v, w);
      }
    }

    /** A struct that says t, from what p refers to and new memory. */
    method NewStruct(p: TaskObject, t: Task, ghost w: World) returns (v: TaskStruct)
      requires Stands(w) && p in reach.held
      modifies this`reach, this`hands
      ensures Stands(w) && Widened(old(reach), reach) && hands == old(hands)
      ensures TaskValue(v) == t && Refs(v) <= reach.memory && Lent(flights, p) == old(Lent(flights, p))
    {
      v := StructSaying(p.v, t);
      Gain([], Reach(reach.held, reach.memory + Refs(v)), w);
    }

    method AssignNew(p: TaskObject, t: Task, ghost w: World)
      requires Stands(w) && p in reach.held
      modifies p, this`reach, this`hands
      ensures !old(Withheld(p)) ==> ObjectValue(p) == t
      ensures Stands(w) && Widened(old(reach), reach) && hands == old(hands)
      ensures rest.store.State() == old(rest.store.State())
    {
      var v := NewStruct(p, t, w);
      AssignStruct(p, v, w);
    }

    method WriteInto(p: TaskObject, edit: Edit, ghost w: World)
      requires Stands(w) && p in reach.held
      requires Target(p.v, edit) != null && !Withheld(Target(p.v, edit))
      modifies Target(p.v, edit)
      ensures Stands(w) && rest.store.State() == old(rest.store.State())
      ensures p.v == old(p.v) && Edited(p.v, edit)
    {
      assert Target(p.v, edit) in Footprint(p) && Footprint(p) <= reach.memory;
      match edit {
        case NewLabels(labels) => SetLabels(p.v.meta.labels, labels, w);
        case NewWord(field, at, word) => SetWord(WordsOf(p.v, field), at, word, w);
        case NewCondition(at, condition) => SetCondition(p.v.status.conditions, at, condition, w);
      }
    }

    method Touches(p: TaskObject, edit: Edit, ghost w: World)
      requires Stands(w) && p in reach.held
      modifies reach.memory
      ensures Stands(w) && rest.store.State() == old(rest.store.State()) && p.v == old(p.v)
      ensures Target(p.v, edit) != null && !old(Withheld(Target(p.v, edit))) ==> Edited(p.v, edit)
    {
      var target := Target(p.v, edit);
      if target != null && !Withheld(target) {
        assert target in Footprint(p) && Footprint(p) <= reach.memory;
        WriteInto(p, edit, w);
      }
    }

    /** p takes a part from q; slices and labels are shared from then on. */
    method SharePart(p: TaskObject, q: TaskObject, part: Part, ghost w: World)
      requires Stands(w) && p in reach.held && q in reach.held
      modifies p
      ensures p.v == if old(Withheld(p)) then old(p.v) else Shared(part, old(p.v), old(q.v))
      ensures Stands(w) && rest.store.State() == old(rest.store.State())
    {
      assert Footprint(p) <= reach.memory && Footprint(q) <= reach.memory;
      AssignStruct(p, Shared(part, p.v, q.v), w);
    }

    /** A write changes what it is meant to, unless patience withholds it. */
    method Scribble(m: Move, ghost w: World)
      requires Stands(w) && !m.Act?
      modifies reach.memory, this`hands, this`reach
      ensures Stands(w) && Widened(old(reach), reach)
      ensures rest.store.State() == old(rest.store.State())
      ensures m.Make? ==> hands != [] && hands[..|hands| - 1] == old(hands) && ObjectValue(hands[|hands| - 1]) == m.t
      ensures !m.Make? ==> hands == old(hands)
      ensures m.Assign? && m.to < |old(hands)| && !old(Withheld(hands[m.to])) ==> ObjectValue(hands[m.to]) == m.t
      ensures m.Share? && m.to < |old(hands)| && m.from < |old(hands)| && !old(Withheld(hands[m.to])) ==>
                hands[m.to].v == Shared(m.part, old(hands[m.to].v), old(hands[m.from].v))
      ensures m.Touch? && m.to < |old(hands)| ==>
                var v := old(hands[m.to].v);
                hands[m.to].v == v &&
                (Target(v, m.edit) != null && !old(Withheld(Target(v, m.edit))) ==> Edited(v, m.edit))
    {
      match m {
        case Make(t) =>
          var p := MakeTask(t, w);
        case Assign(to, t) =>
          if to < |hands| {
            AssignNew(hands[to], t, w);
          }
        case Share(to, from, part) =>
          if to < |hands| && from < |hands| {
            SharePart(hands[to], hands[from], part, w);
          }
        case Touch(to, edit) =>
          if to < |hands| {
            Touches(hands[to], edit, w);
          }
      }
    }

    // --- Steps of requests ---

    /** A client's object at index at, unless a patient client has lent it to a request. */
    method PlaceOf(at: nat) returns (place: Place)
      requires Separated()
      ensures place.Held? ==> place.p in reach.held && !Withheld(place.p)
      ensures at < |hands| && !Withheld(hands[at]) ==> place == Held(hands[at])
      ensures at == |hands| ==> place == TheCopy
      ensures at == |hands| + 1 ==> place == NewFromCopy
    {
      place := if at < |hands| && !Withheld(hands[at]) then Held(hands[at])
               else if at == |hands| then TheCopy else if at == |hands| + 1 then NewFromCopy else NewObject;
    }

    /** The private work of an update does not touch what other requests in flight carry. */
    method DraftWrite(c: Call, place: Place, ghost w: World)
      returns (write: Result<Write>, kept: seq<TaskObject>, ghost reach': Reach)
      requires Stands(w) && c.UpdateCall?
      requires place.Held? ==> place.p in reach.held && !Withheld(place.p)
      modifies if place.Held? then {place.p} else {}
      ensures unchanged(this) && unchanged(rest.store) && Widened(reach, reach')
      ensures StandsIn(w, reach')
      ensures Decision(write) == DecideUpdate(rest.lib, rest.store.State(), c)
      ensures write.Ok? ==> write.value.obj in kept && |kept| == if write.value.creates then 3 else 4
      ensures Has(reach', kept)
      ensures write.Ok? && place.Held? ==> write.value.obj == place.p
    {
      write, kept, reach' := DecideWrite(rest.store, rest.lib, c, place, reach);
    }

    /** The clients' reach is from now on reach', with ps in their hands. */
    method Adopt(ps: seq<TaskObject>, ghost reach': Reach, ghost w: World)
      requires StandsIn(w, reach') && Has(reach', ps)
      modifies this`hands, this`reach
      ensures Stands(w) && reach == reach' && hands == old(hands) + ps
    {
      hands, reach := hands + ps, reach';
    }

    method AdoptBeside(ps: seq<TaskObject>, ghost reach': Reach, write: Result<Write>,
                       ghost d: Result<Intent>, ghost w: World)
      requires StandsIn(w, reach') && Has(reach', ps)
      requires Decision(write) == d && (write.Ok? ==> write.value.obj in reach'.held)
      modifies this`hands, this`reach
      ensures Stands(w) && reach == reach' && hands == old(hands) + ps && Decision(write) == d
    {
      Adopt(ps, reach', w);
    }

    /** And its clients keep what they were shown. */
    method DraftAndGain(c: Call, place: Place, ghost w: World) returns (write: Result<Write>)
      requires Stands(w) && c.UpdateCall?
      requires place.Held? ==> place.p in reach.held && !Withheld(place.p)
      modifies this`hands, this`reach, if place.Held? then {place.p} else {}
      ensures Stands(w) && Widened(old(reach), reach)
      ensures unchanged(rest.store) && Decision(write) == DecideUpdate(rest.lib, rest.store.State(), c)
      ensures write.Ok? ==> write.value.obj in hands && write.value.obj in reach.held
      ensures Silent()
      ensures write.Ok? ==> |hands| == |old(hands)| + if write.value.creates then 3 else 4
      ensures write.Ok? && place.Held? ==> write.value.obj == place.p
    {
      var kept;
      ghost var reach';
      write, kept, reach' := DraftWrite(c, place, w);
      AdoptBeside(kept, reach', write, Decision(write), w);
    }

    /** A request is answered. */
    method Record(ghost r: Response, c: Call, ghost w: World, ghost w': World)
      requires Separated()
      requires patient ==> FlightsSay(flights, w'.pending, reach) && Tallies(w)
                           && Answers(w, w', c, rest.store.State(), r, w'.pending)
      modifies this`answers
      ensures Stands(w') && reach == old(reach)
      ensures answers == old(answers) + [r]
    {
      answers := answers + [r];
    }

    /** A request goes into flight. */
    method Depart(id: nat, f: Flight, ghost w: World, ghost w': World)
      requires Stands(w) && FlightWithin(f, reach)
      requires patient ==> TakesOff(w, w', id) && Says(f, w'.pending[id])
      modifies this`flights
      ensures Stands(w') && reach == old(reach)
      ensures Silent()
      ensures flights == old(flights)[id := f]
    {
      if patient {
        FlightsSayWith(flights, w.pending, reach, id, f, w'.pending[id]);
      }
      flights := flights[id := f];
    }

    method RefuseOrDepart(id: nat, c: Call, write: Result<Write>, ghost d: Result<Intent>,
                          ghost w: World, ghost w': World)
      requires Stands(w) && c.UpdateCall? && Decision(write) == d && (write.Ok? ==> write.value.obj in reach.held)
      requires patient ==> d == DecideUpdate(rest.lib, w.store, c) && UpdateBegun(rest.lib, w, w', id, c)
      modifies this`flights, this`answers
      ensures Stands(w') && reach == old(reach)
      ensures |answers| > |old(answers)| ==> !answers[|answers| - 1].Object?
      ensures write.Ok? ==> flights == old(flights)[id := Writing(c, write.value)]
      ensures write.Err? ==> flights == old(flights)
    {
      match write {
        case Err(e) => Record(Failed(e), c, w, w');
        case Ok(wr) => Depart(id, Writing(c, wr), w, w');
      }
    }

    method BeginUpdate(id: nat, c: Call, at: nat, ghost w: World, ghost w': World)
      requires Stands(w) && c.UpdateCall? && id !in flights && (patient ==> UpdateBegun(rest.lib, w, w', id, c))
      modifies this`hands, this`reach, this`flights, this`answers, reach.memory
      ensures Stands(w') && Widened(old(reach), reach)
      ensures |answers| > |old(answers)| ==> !answers[|answers| - 1].Object?
      ensures id in flights && at < |old(hands)| && !old(Withheld(hands[at])) ==>
                flights[id].Writing? && flights[id].write.obj == old(hands[at])
    {
      var place := PlaceOf(at);
      var write := DraftAndGain(c, place, w);
      RefuseOrDepart(id, c, write, Decision(write), w, w');
    }

    /** The object a client submits with a create: one it holds, made to say t, or a new one. */
    method Submit(t: Task, at: nat, ghost w: World) returns (obj: TaskObject)
      requires Stands(w)
      modifies this`hands, this`reach, reach.memory
      ensures Stands(w) && Widened(old(reach), reach)
      ensures rest.store.State() == old(rest.store.State()) && ObjectValue(obj) == t
      ensures obj in reach.held && !Withheld(obj) && (obj in old(reach.memory) || fresh(obj))
      ensures at < |old(hands)| && !old(Withheld(hands[at])) ==> obj == old(hands[at])
    {
      if at < |hands| && !Withheld(hands[at]) {
        obj := hands[at];
        AssignNew(obj, t, w);
      } else {
        obj := MakeTask(t, w);
      }
    }

    /** The private work of a create does not touch what requests in flight carry. */
    method DraftNow(c: Call, obj: TaskObject, ghost w: World)
      returns (err: Option<Error>, kept: seq<TaskObject>, ghost reach': Reach)
      requires Stands(w) && c.CreateCall?
      requires obj in reach.held && !Withheld(obj)
      modifies obj
      ensures unchanged(this) && unchanged(rest.store) && Widened(reach, reach')
      ensures StandsIn(w, reach')
      ensures Drafted(TaskOf(DraftCreate(rest.lib, old(ObjectValue(obj)), c.uid, c.admitCreate)), err, obj)
      ensures Has(reach', kept)
    {
      err, kept, reach' := DraftBeside(rest.store, rest.lib, obj, c.uid, c.admitCreate, reach);
    }

    /** All memory that must stay apart from the store, the session itself included. */
    ghost function WithSession(): Reach
      reads this
    {
      Reach({}, reach.memory + {this})
    }

    /** The store as it is now, in the protocol's terms. */
    ghost function Now(w: World): World
      reads rest.store
    {
      w.(store := rest.store.State())
    }

    /** What the session says apart from the store. */
    ghost predicate Settled(w: World)
      reads this, reach.memory
    {
      match w case World(_, pending, _, _, _, _) =>
        && Sound(reach) && this !in reach.memory
        && kept <= hands && Has(reach, hands) && FlightsWithin(flights, reach)
        && (patient ==> FlightsSay(flights, pending, reach) && Tallies(w))
    }

    /** The session right after a store call whose answer nobody has yet. */
    ghost predicate Stored(w: World)
      reads this, rest.store, rest.store.Repr(), reach.memory
    {
      rest.store.Valid() && Apart(WithSession(), rest.store) && Settled(w)
    }

    method StoreBeside(obj: TaskObject, err: Option<Error>, ghost drafted: Result<Task>, ghost w: World)
      returns (r: Result<TaskObject>)
      requires Stands(w) && Drafted(drafted, err, obj)
      modifies rest.store
      ensures rest.store.Isolated(r) && Stored(w)
      ensures (rest.store.State(), Outcome(r)) == InsertAt(old(rest.store.State()), drafted)
    {
      ghost var settled := Settled(w);
      r := CreateUnderOwnKey(rest.store, obj, err, drafted, WithSession());
      assert Settled(w) == settled;
    }

    method StoreNew(obj: TaskObject, err: Option<Error>, ghost drafted: Result<Task>, ghost w: World)
      returns (r: Result<TaskObject>, ghost reach': Reach)
      requires Stands(w) && Drafted(drafted, err, obj)
      modifies rest.store
      ensures StandsIn(Now(w), reach') && Widened(reach, reach') && (r.Ok? ==> r.value in reach'.held)
      ensures (rest.store.State(), Outcome(r)) == InsertAt(old(rest.store.State()), drafted)
    {
      r := StoreBeside(obj, err, drafted, w);
      StandsWith(r, w);
      reach' := With(r);
    }

    /** The clients' reach with an answer that nobody has yet. */
    ghost function With(r: Result<TaskObject>): Reach
      reads this`reach, if r.Ok? then {r.value} else {}
    {
      match r case Ok(p) => Holding(reach, p) case Err(_) => reach
    }

    lemma StandsWith(r: Result<TaskObject>, w: World)
      requires Stored(w)
      requires r.Ok? ==> Footprint(r.value) !! rest.store.Repr()
      requires r.Ok? ==> rest.store !in Footprint(r.value) && this !in Footprint(r.value)
      ensures StandsIn(Now(w), With(r))
    {}

    /** A client gets its answer, and keeps the Task it may hold. */
    method Receive(r: Result<TaskObject>, c: Call, ghost reach': Reach, ghost w: World, ghost w': World)
      requires StandsIn(Now(w), reach') && (r.Ok? ==> r.value in reach'.held)
      requires patient ==> Answers(w, w', c, rest.store.State(), Reply(Outcome(r)), w.pending)
      modifies this`hands, this`reach, this`answers
      ensures Stands(w') && reach == reach' && hands == old(hands) + if r.Ok? then [r.value] else []
      ensures AnswerHeld()
    {
      ghost var response := Reply(Outcome(r));
      Adopt(if r.Ok? then [r.value] else [], reach', Now(w));
      Record(response, c, Now(w), w');
    }

    method DraftNowAndGain(c: Call, obj: TaskObject, ghost w: World) returns (err: Option<Error>)
      requires Stands(w) && c.CreateCall?
      requires obj in reach.held && !Withheld(obj)
      modifies this`hands, this`reach, obj
      ensures unchanged(rest.store) && Stands(w) && Widened(old(reach), reach)
      ensures Drafted(TaskOf(DraftCreate(rest.lib, old(ObjectValue(obj)), c.uid, c.admitCreate)), err, obj)
    {
      var kept;
      ghost var reach';
      err, kept, reach' := DraftNow(c, obj, w);
      Adopt(kept, reach', w);
    }

    method SubmitAndDraft(c: Call, at: nat, ghost w: World) returns (obj: TaskObject, err: Option<Error>)
      requires Stands(w) && c.CreateCall?
      modifies this`hands, this`reach, reach.memory
      ensures unchanged(rest.store) && Stands(w) && Widened(old(reach), reach)
      ensures Drafted(TaskOf(DraftCreate(rest.lib, c.obj, c.uid, c.admitCreate)), err, obj)
    {
      obj := Submit(c.obj, at, w);
      err := DraftNowAndGain(c, obj, w);
    }

    method CreateNow(obj: TaskObject, err: Option<Error>, c: Call,
                     ghost drafted: Result<Task>, ghost w: World, ghost w': World)
      requires Stands(w) && Drafted(drafted, err, obj)
      requires patient ==> var (s, r) := InsertAt(w.store, drafted); Answers(w, w', c, s, Reply(r), w.pending)
      modifies rest.store, this`hands, this`reach, this`answers
      ensures Stands(w') && Widened(old(reach), reach)
      ensures |answers| > |old(answers)| ==> AnswerHeld()
    {
      var r;
      ghost var reach';
      r, reach' := StoreNew(obj, err, drafted, w);
      Receive(r, c, reach', w, w');
    }

    method BeginCreate(c: Call, at: nat, ghost w: World, ghost w': World)
      requires Stands(w) && c.CreateCall? && (patient ==> RanAtOnce(rest.lib, w, w', c))
      modifies rest.store, this`hands, this`reach, this`answers, reach.memory
      ensures Stands(w') && Widened(old(reach), reach)
      ensures |answers| > |old(answers)| ==> AnswerHeld()
    {
      var obj, err := SubmitAndDraft(c, at, w);
      CreateNow(obj, err, c, TaskOf(DraftCreate(rest.lib, c.obj, c.uid, c.admitCreate)), w, w');
    }

    method BeginGet(c: Call, ghost w: World, ghost w': World)
      requires Stands(w) && c.GetCall? && (patient ==> RanAtOnce(rest.lib, w, w', c))
      modifies this`hands, this`reach, this`answers
      ensures Stands(w') && Widened(old(reach), reach)
      ensures |answers| > |old(answers)| ==> AnswerHeld()
    {
      var r := rest.Get(c);
      StandsWith(r, w);
      Receive(r, c, With(r), w, w');
    }

    method CheckAndGain(c: Call, ghost w: World) returns (k: Result<Key>)
      requires Stands(w) && c.DeleteCall?
      modifies this`hands, this`reach
      ensures Stands(w) && Widened(old(reach), reach)
      ensures k == DecideDelete(rest.store.State(), c)
      ensures Silent()
      ensures k.Ok? ==> |hands| > |old(hands)|
    {
      var kept;
      ghost var reach';
      k, kept, reach' := rest.DecideRemoval(c, reach);
      Adopt(kept, reach', w);
    }

    method RefuseOrLeave(id: nat, c: Call, k: Result<Key>, ghost w: World, ghost w': World)
      requires Stands(w) && c.DeleteCall?
      requires patient ==> k == DecideDelete(w.store, c) && DeleteBegun(w, w', id, c)
      modifies this`flights, this`answers
      ensures Stands(w') && reach == old(reach)
      ensures |answers| > |old(answers)| ==> !answers[|answers| - 1].Object?
    {
      match k {
        case Err(e) => Record(Failed(e), c, w, w');
        case Ok(key) => Depart(id, Deleting(c, key), w, w');
      }
    }

    method BeginDelete(id: nat, c: Call, ghost w: World, ghost w': World)
      requires Stands(w) && c.DeleteCall? && id !in flights && (patient ==> DeleteBegun(w, w', id, c))
      modifies this`hands, this`reach, this`flights, this`answers
      ensures Stands(w') && Widened(old(reach), reach)
      ensures |answers| > |old(answers)| ==> !answers[|answers| - 1].Object?
    {
      var k := CheckAndGain(c, w);
      RefuseOrLeave(id, c, k, w, w');
    }

    method GatherNow(c: Call, ghost matched: map<Key, Task>, ghost w: World)
      returns (items: seq<TaskStruct>, maxRV: Uint64, ghost order: seq<Key>, ghost reach': Reach)
      requires Stands(w) && c.ListCall? && matched == Matching(rest.store.State().items, c.namespace, c.selector)
      ensures Apart(reach', rest.store) && Widened(reach, reach') && this !in reach'.memory
      ensures maxRV == MaxRV(matched) && ItemsSay(items, order, matched, reach'.memory)
    {
      ghost var made;
      items, maxRV, order, made := rest.Gather(c);
      reach' := Reach(reach.held, reach.memory + made);
      ItemsSayWithin(items, order, matched, made, reach'.memory);
    }

    method GainItems(items: seq<TaskStruct>, ghost order: seq<Key>, ghost matched: map<Key, Task>,
                     ghost reach': Reach, ghost w: World)
      requires Stands(w) && ItemsSay(items, order, matched, reach'.memory)
      requires Apart(reach', rest.store) && Covers(reach', reach) && this !in reach'.memory
      modifies this`hands, this`reach
      ensures Stands(w) && reach == reach' && ItemsSay(items, order, matched, reach'.memory) && Silent()
    {
      ghost var said := ItemsSay(items, order, matched, reach'.memory);
      Gain([], reach', w);
      assert ItemsSay(items, order, matched, reach'.memory) == said;
    }

    method GatherAndGain(c: Call, ghost matched: map<Key, Task>, ghost w: World)
      returns (items: seq<TaskStruct>, maxRV: Uint64, ghost order: seq<Key>)
      requires Stands(w) && c.ListCall? && matched == Matching(rest.store.State().items, c.namespace, c.selector)
      modifies this`hands, this`reach
      ensures Stands(w) && Widened(old(reach), reach) && Silent()
      ensures maxRV == MaxRV(matched) && ItemsSay(items, order, matched, reach.memory)
    {
      ghost var reach';
      items, maxRV, order, reach' := GatherNow(c, matched, w);
      GainItems(items, order, matched, reach', w);
    }

    /** Each item of a List is a struct in memory, which the client holds. */
    method TakeItem(item: TaskStruct, ghost w: World)
      requires Stands(w) && Refs(item) <= reach.memory
      modifies this`hands, this`reach
      ensures Stands(w) && Widened(old(reach), reach)
      ensures |hands| == |old(hands)| + 1 && hands[..|old(hands)|] == old(hands) && hands[|old(hands)|].v == item
    {
      var p := new TaskObject(item);
      Gain([p], Holding(reach, p), w);
    }

    method TakeItems(items: seq<TaskStruct>, ghost w: World)
      requires Stands(w) && forall t :: t in items ==> Refs(t) <= reach.memory
      modifies this`hands, this`reach
      ensures Stands(w) && Widened(old(reach), reach)
      ensures |hands| == |old(hands)| + |items|
      ensures forall i :: 0 <= i < |items| ==> hands[|old(hands)| + i].v == items[i]
    {
      for i := 0 to |items|
        invariant Stands(w) && Widened(old(reach), reach) && |hands| == |old(hands)| + i
        invariant forall j :: 0 <= j < i ==> hands[|old(hands)| + j].v == items[j]
      {
        assert items[i] in items;
        TakeItem(items[i], w);
      }
    }

    /** A List is answered. */
    method Announce(resourceVersion: string, ghost matched: map<Key, Task>, ghost rv: Uint64,
                    ghost w: World, ghost w': World)
      requires Stands(w) && resourceVersion == FormatRV(rv)
      requires patient ==> HandsOut(w, w', matched, rv, w.pending)
      modifies this`listed, this`versions
      ensures Stands(w') && reach == old(reach) && hands == old(hands)
      ensures listed == old(listed) + [matched] && versions == old(versions) + [resourceVersion]
    {
      listed, versions := listed + [matched], versions + [resourceVersion];
    }

    lemma TakenItemsSay(items: seq<TaskStruct>, order: seq<Key>, matched: map<Key, Task>, memory: set<object>)
      requires Separated() && memory <= reach.memory && listed != [] && listed[|listed| - 1] == matched
      requires ItemsSay(items, order, matched, memory) && |items| <= |hands|
      requires forall i :: 0 <= i < |items| ==> hands[|hands| - |items| + i].v == items[i]
      ensures ListHeld()
    {
      EnumerationLength(order, matched.Keys);
      assert |matched| == |matched.Keys| == |items|;
      var ps := hands[|hands| - |matched|..];
      forall i | 0 <= i < |ps|
        ensures ps[i] in reach.memory && ps[i].v == items[i]
      {
        assert ps[i] == hands[|hands| - |items| + i];
      }
      TasksSayItems(ps, items, order, matched, memory, reach.memory);
      assert Say(ps, matched, reach.memory);
    }

    method TakeAll(items: seq<TaskStruct>, ghost order: seq<Key>, ghost matched: map<Key, Task>,
                   ghost said: bool, ghost w: World)
      requires Stands(w) && listed != [] && listed[|listed| - 1] == matched
      requires forall t :: t in items ==> Refs(t) <= reach.memory
      requires said ==> ItemsSay(items, order, matched, reach.memory)
      modifies this`hands, this`reach
      ensures Stands(w) && Widened(old(reach), reach) && (said ==> ListHeld())
    {
      ghost var memory, before := reach.memory, ItemsSay(items, order, matched, reach.memory);
      TakeItems(items, w);
      assert ItemsSay(items, order, matched, memory) == before;
      if said {
        TakenItemsSay(items, order, matched, memory);
      }
    }

    /** The answer to a List. If the items say what has matched, the client holds them. */
    method HandOut(items: seq<TaskStruct>, maxRV: Uint64, ghost order: seq<Key>, ghost matched: map<Key, Task>,
                   ghost said: bool, ghost w: World, ghost w': World)
      requires Stands(w) && forall t :: t in items ==> Refs(t) <= reach.memory
      requires said ==> ItemsSay(items, order, matched, reach.memory)
      requires patient ==> HandsOut(w, w', matched, if maxRV == 0 then w.store.rv else maxRV, w.pending)
      modifies this`hands, this`reach, this`listed, this`versions
      ensures Stands(w') && Widened(old(reach), reach) && (said ==> ListHeld())
      ensures listed == old(listed) + [matched]
    {
      ghost var before := ItemsSay(items, order, matched, reach.memory);
      var list := rest.Conclude(items, maxRV);
      assert list.items[..] == items;
      Announce(list.resourceVersion, matched, if maxRV == 0 then rest.store.State().rv else maxRV, w, w');
      assert ItemsSay(items, order, matched, reach.memory) == before;
      TakeAll(list.items[..], order, matched, said, w');
    }

    method GatherOrHandOut(id: nat, c: Call, ghost matched: map<Key, Task>, ghost w: World, ghost w': World)
      requires Stands(w) && c.ListCall? && id !in flights
      requires matched == Matching(rest.store.State().items, c.namespace, c.selector)
      requires patient ==> ListTaken(w, w', id, c, matched)
      modifies this`hands, this`reach, this`flights, this`listed, this`versions
      ensures Stands(w') && Widened(old(reach), reach) && (|listed| > |old(listed)| ==> ListHeld())
    {
      ghost var order;
      var items, maxRV;
      items, maxRV, order := GatherAndGain(c, matched, w);
      if maxRV == 0 {
        EnumerationLength(order, matched.Keys);
        Depart(id, Gathering(c, items), w, w');
      } else {
        HandOut(items, maxRV, order, matched, true, w, w');
      }
    }

    method BeginList(id: nat, c: Call, ghost w: World, ghost w': World)
      requires Stands(w) && c.ListCall? && id !in flights && (patient ==> ListBegun(w, w', id, c))
      modifies this`hands, this`reach, this`flights, this`answers, this`listed, this`versions
      ensures Stands(w') && Widened(old(reach), reach)
      ensures |answers| > |old(answers)| ==> !answers[|answers| - 1].Object?
      ensures |listed| > |old(listed)| ==> ListHeld()
    {
      if c.fieldSelector {
        Record(Failed(Unsupported), c, w, w');
      } else {
        GatherOrHandOut(id, c, Matching(rest.store.State().items, c.namespace, c.selector), w, w');
      }
    }

    method BeginRequest(id: nat, c: Call, at: nat, ghost w: World)
      requires Stands(w) && id !in flights
      modifies rest.store, this`hands, this`reach, this`flights
      modifies this`answers, this`listed, this`versions, reach.memory
      ensures Stands(BeginCall(rest.lib, w, id, c)) && Widened(old(reach), reach)
      ensures |answers| > |old(answers)| ==> AnswerHeld()
      ensures |listed| > |old(listed)| ==> ListHeld()
    {
      ghost var w' := BeginCall(rest.lib, w, id, c);
      match c {
        case CreateCall(_, _, _) =>
          CreateOrGetBegins(rest.lib, w, id, c);
          BeginCreate(c, at, w, w');
        case UpdateCall(_, _, _, _, _, _, _, _, _) =>
          UpdateBegins(rest.lib, w, id, c);
          BeginUpdate(id, c, at, w, w');
        case DeleteCall(_, _, _, _) =>
          DeleteBegins(rest.lib, w, id, c);
          BeginDelete(id, c, w, w');
        case GetCall(_, _) =>
          CreateOrGetBegins(rest.lib, w, id, c);
          BeginGet(c, w, w');
        case ListCall(_, _, _) =>
          ListBegins(rest.lib, w, id, c);
          BeginList(id, c, w, w');
      }
    }

    /** A request leaves flight. */
    method Land(id: nat, ghost w: World)
      requires Stands(w) && id in flights
      modifies this`flights
      ensures Stands(Landed(w, id)) && reach == old(reach)
    {
      if patient {
        FlightsSayWithout(flights, w.pending, reach, id);
      }
      flights := flights - {id};
    }

    method FlightOf(id: nat, ghost w: World) returns (f: Flight)
      requires Stands(w) && id in flights
      ensures FlightWithin(f, reach) && (patient ==> id in w.pending && Says(f, w.pending[id]))
    {
      f := flights[id];
    }

    method CarryBeside(write: Write, ghost i: Intent, ghost w: World) returns (r: Result<TaskObject>)
      requires Stands(w) && WriteValue(write) == i
      modifies rest.store
      ensures rest.store.Isolated(r) && Stored(w)
      ensures (rest.store.State(), Outcome(r)) == Carry(old(rest.store.State()), i)
    {
      ghost var settled := Settled(w);
      r := CarryOut(rest.store, write, i, WithSession());
      assert Settled(w) == settled;
    }

    method CarryNow(write: Write, ghost i: Intent, ghost w: World) returns (r: Result<TaskObject>, ghost reach': Reach)
      requires Stands(w) && WriteValue(write) == i
      modifies rest.store
      ensures StandsIn(Now(w), reach') && Widened(reach, reach') && (r.Ok? ==> r.value in reach'.held)
      ensures (rest.store.State(), Outcome(r)) == Carry(old(rest.store.State()), i)
    {
      r := CarryBeside(write, i, w);
      StandsWith(r, w);
      reach' := With(r);
    }

    method FinishWrite(write: Write, c: Call, ghost i: Intent, ghost w: World, ghost w': World)
      requires Stands(w) && WriteValue(write) == i
      requires patient ==> var (s, r) := Carry(w.store, i); Answers(w, w', c, s, Reply(r), w.pending)
      modifies rest.store, this`hands, this`reach, this`answers
      ensures Stands(w') && Widened(old(reach), reach)
      ensures |answers| > |old(answers)| ==> AnswerHeld()
    {
      var r;
      ghost var reach';
      r, reach' := CarryNow(write, i, w);
      Receive(r, c, reach', w, w');
    }

    method RemoveBeside(key: Key, ghost w: World) returns (r: Result<TaskObject>)
      requires Stands(w)
      modifies rest.store
      ensures rest.store.Isolated(r) && Stored(w)
      ensures (rest.store.State(), Outcome(r)) == StoreDelete(old(rest.store.State()), key)
    {
      ghost var settled := Settled(w);
      r := rest.RemoveKey(key, WithSession());
      assert Settled(w) == settled;
    }

    method RemoveNow(key: Key, ghost w: World) returns (r: Result<TaskObject>, ghost reach': Reach)
      requires Stands(w)
      modifies rest.store
      ensures StandsIn(Now(w), reach') && Widened(reach, reach') && (r.Ok? ==> r.value in reach'.held)
      ensures (rest.store.State(), Outcome(r)) == StoreDelete(old(rest.store.State()), key)
    {
      r := RemoveBeside(key, w);
      StandsWith(r, w);
      reach' := With(r);
    }

    method FinishDelete(key: Key, c: Call, ghost w: World, ghost w': World)
      requires Stands(w)
      requires patient ==> var (s, r) := StoreDelete(w.store, key); Answers(w, w', c, s, Reply(r), w.pending)
      modifies rest.store, this`hands, this`reach, this`answers
      ensures Stands(w') && Widened(old(reach), reach)
      ensures |answers| > |old(answers)| ==> AnswerHeld()
    {
      var r;
      ghost var reach';
      r, reach' := RemoveNow(key, w);
      Receive(r, c, reach', w, w');
    }

    /** w without the request that has just left flight. */
    ghost function Landed(w: World, id: nat): World {
      w.(pending := w.pending - {id})
    }

    method FinishList(items: seq<TaskStruct>, ghost matched: map<Key, Task>, ghost w: World, ghost w': World)
      requires Stands(w) && forall t :: t in items ==> Refs(t) <= reach.memory
      requires patient ==> |items| == |matched| && HandsOut(w, w', matched, w.store.rv, w.pending)
      modifies this`hands, this`reach, this`listed, this`versions
      ensures Stands(w') && Widened(old(reach), reach)
      ensures patient && matched == map[] ==> ListHeld()
    {
      HandOut(items, 0, [], matched, patient && matched == map[], w, w');
    }

    method FinishFlight(id: nat, f: Flight, ghost w: World, ghost w': World)
      requires Stands(Landed(w, id)) && FlightWithin(f, reach)
      requires patient ==> id in w.pending && Says(f, w.pending[id]) && w' == FinishCall(w, id)
      modifies rest.store, this`hands, this`reach, this`answers, this`listed, this`versions
      ensures Stands(w') && Widened(old(reach), reach)
      ensures |answers| > |old(answers)| ==> AnswerHeld()
      ensures patient && Inv(rest.lib, w) && |listed| > |old(listed)| ==> ListHeld()
    {
      match f {
        case Writing(c, write) =>
          if patient {
            WriteFinishes(w, id, c, WriteValue(write));
          }
          FinishWrite(write, c, WriteValue(write), Landed(w, id), w');
        case Deleting(c, key) =>
          if patient {
            DeleteFinishes(w, id);
          }
          FinishDelete(key, c, Landed(w, id), w');
        case Gathering(c, items) =>
          if patient {
            ListFinishes(rest.lib, w, id);
          }
          FinishList(items, if patient then w.pending[id].items else map[], Landed(w, id), w');
      }
    }

    method FinishRequest(id: nat, ghost w: World)
      requires Stands(w) && id in flights
      modifies rest.store, this`hands, this`reach, this`flights, this`answers, this`listed, this`versions
      ensures Stands(Step(rest.lib, w, Finish(id))) && Widened(old(reach), reach)
      ensures |answers| > |old(answers)| ==> AnswerHeld()
      ensures patient && Inv(rest.lib, w) && |listed| > |old(listed)| ==> ListHeld()
    {
      var f := FlightOf(id, w);
      Land(id, w);
      FinishFlight(id, f, w, Step(rest.lib, w, Finish(id)));
    }

    // --- Whole sessions ---

    method SetKept(ghost ps: seq<TaskObject>, ghost w: World)
      requires Stands(w) && ps <= hands
      modifies this`kept
      ensures Stands(w) && kept == ps && reach == old(reach)
    {
      kept := ps;
    }

    /** A write changes nothing but what clients can reach, and clients keep all they hold. A Task
        that is answered is in hand as it was answered. So are the items of a List, at once or, up
        to 2^64 - 1 writes, when it takes the second store call. */
    method Play(m: Move, ghost w: World)
      requires Stands(w) && kept == hands
      modifies rest.store, this`hands, this`reach, this`flights
      modifies this`answers, this`listed, this`versions, reach.memory
      ensures Stands(AfterMove(rest.lib, w, m)) && Widened(old(reach), reach) && old(hands) <= hands
      ensures |answers| > |old(answers)| ==> AnswerHeld()
      ensures |listed| > |old(listed)| ==>
                m.Act? && (m.action.Begin? || (patient && Inv(rest.lib, w)) ==> ListHeld())
      ensures !m.Act? ==> rest.store.State() == old(rest.store.State())
    {
      match m {
        case Act(Begin(id, c), at) =>
          if id !in flights {
            BeginRequest(id, c, at, w);
          }
        case Act(Finish(id), _) =>
          if id in flights {
            FinishRequest(id, w);
          }
        case _ => Scribble(m, w);
      }
    }

    /** However requests interleave and whatever the clients write in between, nothing they can
        reach is ever part of the store, and they keep all they hold. If they leave alone what they
        have lent to a request in flight, the store and every answer, Lists with their versions
        included, are those of the protocol, which knows no memory. */
    method PlayAll(moves: seq<Move>)
      requires Stands(START)
      modifies rest.store, this`hands, this`kept, this`reach, this`flights
      modifies this`answers, this`listed, this`versions, reach.memory
      ensures Separated() && old(hands) <= hands
      ensures patient ==> var w := Run(rest.lib, Acts(moves));
                          && rest.store.State() == w.store && answers == Responses(w.served)
                          && listed == ItemsOf(w.lists) && versions == VersionsOf(w.lists)
    {
      for i := 0 to |moves|
        invariant Stands(Run(rest.lib, Acts(moves[..i]))) && Widened(old(reach), reach) && old(hands) <= hands
      {
        ActsStep(rest.lib, moves, i);
        SetKept(hands, Run(rest.lib, Acts(moves[..i])));
        Play(moves[i], Run(rest.lib, Acts(moves[..i])));
      }
      assert moves[..|moves|] == moves;
    }
  }
}
