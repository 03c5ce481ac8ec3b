/** Three concrete runs of what the source allows: two updates succeed from one version and the
    slower one, although it writes through the status view alone, restores the old spec and
    generation; a forced update files an object under another's name; and a delete removes another
    incarnation than its UID precondition names. */
module Interference {
  import opened TaskTypes
  import opened Strategy
  import opened RegistrySpec
  import opened Journal
  import opened Protocol
  import opened Reduction

  // --- A status writer that is overtaken ---

  const LENIENT := Library((m: Meta) => [], (cs: seq<Condition>) => [])
  const KEY := Key("ns", "t1")

  const NEW_TASK := Task(Meta("t1", "ns", "", "", 0, None), Spec("alpine:3", Nil, Nil), EMPTY_STATUS)

  function Put(view: View, edit: Task -> Task): Call {
    UpdateCall(view, "ns", "t1", (t: Task) => Some(edit(t)), None, false, "",
               (t: Task) => true, (t: Task, u: Task) => true)
  }

  const CREATE := CreateCall(NEW_TASK, "uid", (t: Task) => true)
  const SET_IMAGE := Put(MainView, (t: Task) => t.(spec := Spec("alpine:4", Nil, Nil)))
  const SET_PHASE := Put(StatusView, (t: Task) => t.(status := Status("Running", Nil, 1)))

  const RACE := [Begin(0, CREATE), Begin(1, SET_PHASE), Begin(2, SET_IMAGE), Finish(2), Finish(1)]

  /** The world after each action of the race, seen through the fields that matter. */
  lemma AfterCreate() returns (w: World)
    ensures w == Run(LENIENT, RACE[..1])
    ensures |w.log| == 1 && w.pending == map[] && w.store.rv == 1 && |w.served| == 1
    ensures w.store.items.Keys == {KEY} && OwnKey(w.store.items[KEY]) == KEY
    ensures w.store.items[KEY].spec == NEW_TASK.spec && w.store.items[KEY].status == EMPTY_STATUS
    ensures w.store.items[KEY].meta.generation == 1 && w.store.items[KEY].meta.resourceVersion == "1"
    ensures w.store.items[KEY].meta.uid == "uid"
  {
    assert RACE[..1][..0] == [];
    w := Run(LENIENT, RACE[..1]);
  }

  lemma AfterFirstRead() returns (w: World, base: Task)
    ensures w == Run(LENIENT, RACE[..2]) && w.pending.Keys == {1}
    ensures base.spec == NEW_TASK.spec && base.meta.generation == 1 && base.meta.resourceVersion == "1"
    ensures OwnKey(base) == KEY && w.store.items == map[KEY := base]
    ensures w.store.rv == 1 && |w.log| == 1 && |w.served| == 1
    ensures w.pending[1].PendingUpdate? && w.pending[1].view == StatusView
    ensures w.pending[1].since == 1 && w.pending[1].key == KEY && w.pending[1].base == base
    ensures w.pending[1].draft.task.spec == base.spec && w.pending[1].draft.task.meta.generation == 1
  {
    var w1 := AfterCreate();
    base := w1.store.items[KEY];
    w := BeginCall(LENIENT, w1, 1, SET_PHASE);
    assert RACE[..2][..1] == RACE[..1];
  }

  lemma AfterBothRead() returns (w: World, base: Task)
    ensures w == Run(LENIENT, RACE[..3]) && w.pending.Keys == {1, 2}
    ensures base.spec == NEW_TASK.spec && base.meta.generation == 1 && base.meta.resourceVersion == "1"
    ensures w.store.items == map[KEY := base] && w.store.rv == 1 && |w.log| == 1 && |w.served| == 1
    ensures w.pending[1].PendingUpdate? && w.pending[1].view == StatusView
    ensures w.pending[1].since == 1 && w.pending[1].key == KEY && w.pending[1].base == base
    ensures w.pending[1].draft.task.spec == base.spec && w.pending[1].draft.task.meta.generation == 1
    ensures w.pending[2].PendingUpdate? && w.pending[2].view == MainView
    ensures w.pending[2].key == KEY && w.pending[2].base == base
    ensures w.pending[2].draft.task.spec.image == "alpine:4" && w.pending[2].draft.task.meta.generation == 2
  {
    var w2;
    w2, base := AfterFirstRead();
    w := BeginCall(LENIENT, w2, 2, SET_IMAGE);
    assert RACE[..3][..2] == RACE[..2];
  }

  lemma AfterSpecWrite() returns (w: World, base: Task)
    ensures w == Run(LENIENT, RACE[..4]) && |w.log| == 2 && |w.served| == 2 && w.served[1].response.Object?
    ensures base.spec == NEW_TASK.spec && base.meta.generation == 1
    ensures w.log[1].Updated? && w.log[1].key == KEY && w.log[1].base == base
    ensures w.log[1].task.spec.image == "alpine:4" && w.log[1].task.meta.generation == 2
    ensures KEY in w.store.items && 1 in w.pending
    ensures w.pending[1].PendingUpdate? && w.pending[1].view == StatusView
    ensures w.pending[1].since == 1 && w.pending[1].key == KEY && w.pending[1].base == base
    ensures w.pending[1].draft.task.spec == base.spec && w.pending[1].draft.task.meta.generation == 1
  {
    var w3;
    w3, base := AfterBothRead();
    w := FinishCall(w3, 2);
    assert RACE[..4][..3] == RACE[..3];
  }

  /** Both updates succeed from the same version, and the image goes back. */
  lemma StaleStatusWriteRevertsSpec()
    ensures var w := Run(LENIENT, RACE);
            && |w.log| == 3 && w.log[1].Updated? && w.log[2].Updated?
            && w.log[1].base == w.log[2].base && w.log[2].view == StatusView
            && w.log[1].task.spec.image == "alpine:4" && w.log[1].task.meta.generation == 2
            && |w.served| == 3 && w.served[1].response.Object? && w.served[2].response.Object?
            && KEY in w.store.items
            && w.store.items[KEY].spec.image == "alpine:3" && w.store.items[KEY].meta.generation == 1
            && !NoneOvertaken(LENIENT, RACE)
  {
    var w4, base := AfterSpecWrite();
    assert RACE[..5] == RACE && RACE[..5][..4] == RACE[..4];
    assert Run(LENIENT, RACE) == FinishCall(w4, 1);
    assert Overtaken(w4, Finish(1));
  }

  // --- A forced update that files an object under another's name ---

  const STRAY := UpdateCall(MainView, "ns", "a", (t: Task) => Some(NEW_TASK), None, true, "uid",
                            (t: Task) => true, (t: Task, u: Task) => true)

  /** The forced update of "a" stores, and reports, an object that says it is "t1". */
  lemma ForcedUpdateStrays()
    ensures var w := Run(LENIENT, [Begin(0, STRAY), Finish(0)]);
            && Key("ns", "a") in w.store.items && OwnKey(w.store.items[Key("ns", "a")]) == KEY
            && KEY !in w.store.items && |w.served| == 1 && w.served[0].response.Object?
  {
    var acts := [Begin(0, STRAY), Finish(0)];
    assert acts[..1] == [Begin(0, STRAY)] && acts[..1][..0] == [];
    assert Run(LENIENT, acts[..1]) == BeginCall(LENIENT, START, 0, STRAY);
  }

  // --- A delete that removes another incarnation than its UID precondition names ---

  const SECOND := CreateCall(NEW_TASK, "uid2", (t: Task) => true)
  const DELETE := DeleteCall("ns", "t1", None, (t: Task) => true)
  const DELETE_FIRST := DeleteCall("ns", "t1", Some(Preconditions(Some("uid"), None)), (t: Task) => true)

  const SUCCESSION :=
    [Begin(0, CREATE), Begin(1, DELETE_FIRST), Begin(2, DELETE), Finish(2), Begin(3, SECOND), Finish(1)]

  lemma AfterFirstCheck() returns (w: World)
    ensures w == Run(LENIENT, SUCCESSION[..2]) && w.pending.Keys == {1}
    ensures w.store.items.Keys == {KEY} && |w.log| == 1 && |w.served| == 1
    ensures w.pending[1].PendingDelete? && w.pending[1].call == DELETE_FIRST && w.pending[1].key == KEY
  {
    assert SUCCESSION[..1] == RACE[..1];
    var w1 := AfterCreate();
    w := BeginCall(LENIENT, w1, 1, DELETE_FIRST);
    assert SUCCESSION[..2][..1] == SUCCESSION[..1];
  }

  lemma AfterBothChecked() returns (w: World)
    ensures w == Run(LENIENT, SUCCESSION[..3]) && w.pending.Keys == {1, 2}
    ensures w.store.items.Keys == {KEY} && |w.log| == 1 && |w.served| == 1
    ensures w.pending[1].PendingDelete? && w.pending[1].call == DELETE_FIRST && w.pending[1].key == KEY
    ensures w.pending[2].PendingDelete? && w.pending[2].key == KEY
  {
    var w2 := AfterFirstCheck();
    w := BeginCall(LENIENT, w2, 2, DELETE);
    assert SUCCESSION[..3][..2] == SUCCESSION[..2];
  }

  lemma AfterDelete() returns (w: World)
    ensures w == Run(LENIENT, SUCCESSION[..4]) && w.pending.Keys == {1}
    ensures w.pending[1].PendingDelete? && w.pending[1].call == DELETE_FIRST && w.pending[1].key == KEY
    ensures w.store.items == map[] && |w.log| == 2 && |w.served| == 2
  {
    var w3 := AfterBothChecked();
    w := FinishCall(w3, 2);
    assert SUCCESSION[..4][..3] == SUCCESSION[..3];
  }

  lemma AfterSuccession() returns (w: World)
    ensures w == Run(LENIENT, SUCCESSION[..5]) && 1 in w.pending
    ensures w.pending[1].PendingDelete? && w.pending[1].call == DELETE_FIRST && w.pending[1].key == KEY
    ensures w.store.items.Keys == {KEY} && w.store.items[KEY].meta.uid == "uid2" && |w.log| == 3 && |w.served| == 3
  {
    var w4 := AfterDelete();
    w := BeginCall(LENIENT, w4, 3, SECOND);
    assert SUCCESSION[..5][..4] == SUCCESSION[..4];
  }

  /** The delete demanded UID "uid", removes the object with UID "uid2", and reports success. */
  lemma DeleteRemovesAnotherIncarnation()
    ensures var w := Run(LENIENT, SUCCESSION);
            && |w.log| == 4 && w.log[3].Deleted? && w.log[3].pre == DELETE_FIRST.pre
            && w.log[3].removed.meta.uid == "uid2" && !PreconditionsHold(w.log[3].removed, w.log[3].pre)
            && w.store.items == map[] && |w.served| == 4 && w.served[3].response == Object(w.log[3].removed)
  {
    var w5 := AfterSuccession();
    assert SUCCESSION[..6] == SUCCESSION && SUCCESSION[..6][..5] == SUCCESSION[..5];
    assert Run(LENIENT, SUCCESSION) == FinishCall(w5, 1);
  }
}
