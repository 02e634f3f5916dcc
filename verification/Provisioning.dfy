/** pkg/volume/reconciler.go, provision: any number of attempts on any claims,
    interleaved at every call. Each makes storage, then a volume object that
    names it, and gives the storage back when the volume object cannot be had. */
module Provisioning {
  import opened Text

  /** Where an attempt is: about to make storage, holding storage it made, or
      giving that storage back. */
  datatype Stage = Starting | Holding(id: string) | Returning(id: string) | Ended

  datatype Attempt = Attempt(uid: string, stage: Stage)

  /** volumes maps the name of a volume object to the storage it names. leaked is
      for the proof: storage an attempt walked away from. */
  datatype World = World(
    volumes: map<string, string>,
    storage: set<string>,
    attempts: map<nat, Attempt>,
    next: nat,
    leaked: set<string>)

  /** How a call ends: it worked, it failed and did nothing, or it failed after
      taking effect. */
  datatype Outcome = Works | FailsCleanly | FailsAfter

  datatype Move =
    | Start(attempt: nat, uid: string)
    | MakeStorage(attempt: nat, outcome: Outcome)
    | MakeVolume(attempt: nat, outcome: Outcome)
    | GiveBack(attempt: nat, outcome: Outcome)

  function VolumeName(uid: string): string {
    "pvc-" + uid
  }

  lemma VolumeNameInjective(a: string, b: string)
    requires VolumeName(a) == VolumeName(b)
    ensures a == b
  {
    assert VolumeName(a)[4..] == a && VolumeName(b)[4..] == b;
  }

  function StorageId(n: nat): string {
    "storage-" + Decimal(n)
  }

  lemma StorageIdInjective(m: nat, n: nat)
    requires StorageId(m) == StorageId(n)
    ensures m == n
  {
    assert Decimal(m) == StorageId(m)[8..] == StorageId(n)[8..] == Decimal(n);
    DecimalInjective(m, n);
  }

  predicate At(w: World, a: nat, stage: Stage) {
    a in w.attempts && w.attempts[a].stage == stage
  }

  function To(w: World, a: nat, stage: Stage): World
    requires a in w.attempts
  {
    w.(attempts := w.attempts[a := w.attempts[a].(stage := stage)])
  }

  /** One call of one attempt. A move whose turn has not come changes nothing. */
  function Step(w: World, m: Move): World {
    match m
    case Start(a, uid) =>
      if a in w.attempts then w else w.(attempts := w.attempts[a := Attempt(uid, Starting)])
    case MakeStorage(a, outcome) =>
      if !At(w, a, Starting) then w
      else
        var id := StorageId(w.next);
        (match outcome
        case Works => To(w, a, Holding(id)).(storage := w.storage + {id}, next := w.next + 1)
        case FailsCleanly => To(w, a, Ended)
        case FailsAfter => To(w, a, Ended).(storage := w.storage + {id}, next := w.next + 1, leaked := w.leaked + {id}))
    case MakeVolume(a, outcome) =>
      if a !in w.attempts || !w.attempts[a].stage.Holding? then w
      else
        var id, name := w.attempts[a].stage.id, VolumeName(w.attempts[a].uid);
        if name in w.volumes || outcome.FailsCleanly? then To(w, a, Returning(id))
        else if outcome.Works? then To(w, a, Ended).(volumes := w.volumes[name := id])
        else To(w, a, Returning(id)).(volumes := w.volumes[name := id])
    case GiveBack(a, outcome) =>
      if a !in w.attempts || !w.attempts[a].stage.Returning? then w
      else
        var id := w.attempts[a].stage.id;
        if outcome.FailsCleanly? then To(w, a, Ended).(leaked := w.leaked + {id})
        else To(w, a, Ended).(storage := w.storage - {id})
  }

  function Run(w: World, moves: seq<Move>): World {
    if moves == [] then w else Step(Run(w, moves[..|moves| - 1]), moves[|moves| - 1])
  }

  /** The assumption the race is safe under: an error from creating the volume
      object means it was not created. */
  predicate Definite(m: Move) {
    m.MakeVolume? ==> !m.outcome.FailsAfter?
  }

  function Held(s: Stage): set<string> {
    match s
    case Holding(id) => {id}
    case Returning(id) => {id}
    case _ => {}
  }

  ghost predicate Names(w: World, id: string) {
    exists n :: n in w.volumes && w.volumes[n] == id
  }

  ghost predicate Holds(w: World, id: string) {
    exists a :: a in w.attempts && id in Held(w.attempts[a].stage)
  }

  /** Storage is what a volume object names, what an attempt holds, or what was
      leaked - one of them, and nothing else; and nothing is held twice or named
      twice. */
  ghost predicate Accounted(w: World) {
    && (forall id :: id in w.storage <==> Names(w, id) || Holds(w, id) || id in w.leaked)
    && (forall id :: Names(w, id) ==> !Holds(w, id) && id !in w.leaked)
    && (forall id :: Holds(w, id) ==> id !in w.leaked)
    && (forall a, b :: a in w.attempts && b in w.attempts && a != b ==>
          Held(w.attempts[a].stage) !! Held(w.attempts[b].stage))
    && (forall m, n :: m in w.volumes && n in w.volumes && m != n ==> w.volumes[m] != w.volumes[n])
    && (forall n: nat :: n >= w.next ==> StorageId(n) !in w.storage)
  }

  lemma StepAccounted(w: World, m: Move)
    requires Accounted(w) && Definite(m)
    ensures Accounted(Step(w, m))
  {
    match m
    case Start(a, uid) => StartAccounted(w, a, uid);
    case MakeStorage(a, outcome) => if At(w, a, Starting) { MakeStorageAccounted(w, a, outcome); }
    case MakeVolume(a, outcome) =>
      if a in w.attempts && w.attempts[a].stage.Holding? { MakeVolumeAccounted(w, a, outcome); }
    case GiveBack(a, outcome) =>
      if a in w.attempts && w.attempts[a].stage.Returning? { GiveBackAccounted(w, a, outcome); }
  }

  lemma StartAccounted(w: World, a: nat, uid: string)
    requires Accounted(w)
    ensures Accounted(Step(w, Start(a, uid)))
  {
    var t := Step(w, Start(a, uid));
    forall id ensures Holds(t, id) <==> Holds(w, id) {
      if Holds(w, id) {
        var b :| b in w.attempts && id in Held(w.attempts[b].stage);
        assert b in t.attempts && id in Held(t.attempts[b].stage);
      }
    }
    forall id ensures Names(t, id) <==> Names(w, id) {
    }
  }

  lemma HoldsAfter(w: World, a: nat, stage: Stage, id: string)
    requires a in w.attempts
    requires forall b :: b in w.attempts && b != a ==> Held(w.attempts[a].stage) !! Held(w.attempts[b].stage)
    ensures Holds(To(w, a, stage), id) <==> id in Held(stage) || (Holds(w, id) && id !in Held(w.attempts[a].stage))
  {
    var t := To(w, a, stage);
    if id in Held(stage) { assert id in Held(t.attempts[a].stage); }
    if Holds(w, id) && id !in Held(w.attempts[a].stage) {
      var b :| b in w.attempts && id in Held(w.attempts[b].stage);
      assert id in Held(t.attempts[b].stage);
    }
  }

  lemma MakeStorageAccounted(w: World, a: nat, outcome: Outcome)
    requires Accounted(w) && At(w, a, Starting)
    ensures Accounted(Step(w, MakeStorage(a, outcome)))
  {
    var t := Step(w, MakeStorage(a, outcome));
    var new_ := StorageId(w.next);
    forall id ensures Holds(t, id) <==> Holds(w, id) || (outcome.Works? && id == new_) {
      HoldsAfter(w, a, t.attempts[a].stage, id);
      assert Holds(t, id) <==> Holds(To(w, a, t.attempts[a].stage), id);
    }
    forall id ensures Names(t, id) <==> Names(w, id) {
    }
    forall n: nat | n >= t.next ensures StorageId(n) !in t.storage {
      if StorageId(n) == new_ { StorageIdInjective(n, w.next); }
    }
    assert new_ !in w.storage;
    assert !Holds(w, new_);
  }

  lemma MakeVolumeAccounted(w: World, a: nat, outcome: Outcome)
    requires Accounted(w) && a in w.attempts && w.attempts[a].stage.Holding? && !outcome.FailsAfter?
    ensures Accounted(Step(w, MakeVolume(a, outcome)))
  {
    var t := Step(w, MakeVolume(a, outcome));
    var mine, name := w.attempts[a].stage.id, VolumeName(w.attempts[a].uid);
    var made := outcome.Works? && name !in w.volumes;
    assert Holds(w, mine);
    forall id ensures Holds(t, id) <==> Holds(w, id) && !(made && id == mine) {
      HoldsAfter(w, a, t.attempts[a].stage, id);
      assert Holds(t, id) <==> Holds(To(w, a, t.attempts[a].stage), id);
    }
    forall id ensures Names(t, id) <==> Names(w, id) || (made && id == mine) {
      if Names(w, id) {
        var n :| n in w.volumes && w.volumes[n] == id;
        assert n in t.volumes && t.volumes[n] == id;
      }
      if made { assert name in t.volumes && t.volumes[name] == mine; }
    }
    assert !Names(w, mine);
  }

  lemma GiveBackAccounted(w: World, a: nat, outcome: Outcome)
    requires Accounted(w) && a in w.attempts && w.attempts[a].stage.Returning?
    ensures Accounted(Step(w, GiveBack(a, outcome)))
  {
    var t := Step(w, GiveBack(a, outcome));
    var mine := w.attempts[a].stage.id;
    assert Holds(w, mine);
    forall id ensures Holds(t, id) <==> Holds(w, id) && id != mine {
      HoldsAfter(w, a, Ended, id);
      assert Holds(t, id) <==> Holds(To(w, a, Ended), id);
    }
    forall id ensures Names(t, id) <==> Names(w, id) {
    }
  }

  /** From any state in which everything is accounted for - an empty one, say -
      it stays so over every interleaving, as long as errors from creating the
      volume object are definite. */
  lemma {:induction false} RunAccounted(w: World, moves: seq<Move>)
    requires Accounted(w) && forall m :: m in moves ==> Definite(m)
    ensures Accounted(Run(w, moves))
  {
    if moves != [] {
      RunAccounted(w, moves[..|moves| - 1]);
      StepAccounted(Run(w, moves[..|moves| - 1]), moves[|moves| - 1]);
    }
  }

  /** No attempt deletes storage a volume object names. */
  lemma NamedSurvives(w: World, m: Move, id: string)
    requires Accounted(w) && Definite(m) && Names(w, id)
    ensures Names(Step(w, m), id) && id in Step(w, m).storage
  {
    StepAccounted(w, m);
    var n :| n in w.volumes && w.volumes[n] == id;
    assert n in Step(w, m).volumes && Step(w, m).volumes[n] == id;
  }

  predicate AllEnded(w: World) {
    forall a :: a in w.attempts ==> w.attempts[a].stage.Ended?
  }

  /** Once every attempt has ended, what is left is what the volume objects name
      and what leaked; and nothing leaks but by a storage call failing after it
      took effect or a give-back failing. */
  lemma NothingLeftOver(w: World, moves: seq<Move>)
    requires Accounted(w) && (forall m :: m in moves ==> Definite(m)) && AllEnded(Run(w, moves))
    ensures var t := Run(w, moves); forall id :: id in t.storage <==> Names(t, id) || id in t.leaked
    ensures (forall m :: m in moves ==> Clean(m)) ==> Run(w, moves).leaked == w.leaked
  {
    RunAccounted(w, moves);
    if forall m :: m in moves ==> Clean(m) {
      CleanRunLeaksNothing(w, moves);
    }
  }

  /** A call whose error means nothing was done, and a give-back that works. */
  predicate Clean(m: Move) {
    match m
    case MakeStorage(_, outcome) => !outcome.FailsAfter?
    case GiveBack(_, outcome) => !outcome.FailsCleanly?
    case _ => true
  }

  lemma {:induction false} CleanRunLeaksNothing(w: World, moves: seq<Move>)
    requires forall m :: m in moves ==> Clean(m)
    ensures Run(w, moves).leaked == w.leaked
  {
    if moves != [] {
      CleanRunLeaksNothing(w, moves[..|moves| - 1]);
      assert Clean(moves[|moves| - 1]);
    }
  }

  /** One claim never has two volume objects: the name is the claim's, and once
      taken it is never given to other storage. */
  lemma {:induction false} FirstVolumeStays(w: World, moves: seq<Move>, uid: string)
    requires VolumeName(uid) in w.volumes
    ensures VolumeName(uid) in Run(w, moves).volumes
    ensures Run(w, moves).volumes[VolumeName(uid)] == w.volumes[VolumeName(uid)]
  {
    if moves != [] {
      FirstVolumeStays(w, moves[..|moves| - 1], uid);
    }
  }

  // ----- attempts that go through -----

  predicate Working(m: Move) {
    match m
    case Start(_, _) => true
    case MakeStorage(_, outcome) => outcome.Works?
    case MakeVolume(_, outcome) => outcome.Works?
    case GiveBack(_, outcome) => outcome.Works?
  }

  /** An attempt whose calls work, whatever else there is: it makes storage of its
      own, names it by the claim's volume object if the claim has none, and
      otherwise gives it back. */
  lemma AttemptGoesThrough(w: World, a: nat, uid: string)
    requires Accounted(w) && a !in w.attempts
    ensures var calls := [Start(a, uid), MakeStorage(a, Works), MakeVolume(a, Works), GiveBack(a, Works)];
            var t, id, name := Run(w, calls), StorageId(w.next), "pvc-" + uid;
            && t.attempts == w.attempts[a := Attempt(uid, Ended)] && t.leaked == w.leaked && id !in w.storage
            && t.volumes == (if name in w.volumes then w.volumes else w.volumes[name := id])
            && t.storage == (if name in w.volumes then w.storage else w.storage + {id})
  {
    var calls := [Start(a, uid), MakeStorage(a, Works), MakeVolume(a, Works), GiveBack(a, Works)];
    var begun := Step(w, calls[0]);
    var holding := Step(begun, calls[1]);
    assert w.storage + {StorageId(w.next)} - {StorageId(w.next)} == w.storage;
    assert Step(Step(holding, calls[2]), calls[3]).attempts == w.attempts[a := Attempt(uid, Ended)];
    RunOf(w, calls[0], calls[1], calls[2], calls[3]);
  }

  lemma RunOf(w: World, k: Move, l: Move, m: Move, n: Move)
    ensures Run(w, [k, l, m, n]) == Step(Step(Step(Step(w, k), l), m), n)
  {
    hide Step;
    assert [k, l, m, n][..3] == [k, l, m] && [k, l, m][..2] == [k, l] && [k, l][..1] == [k] && [k][..0] == [];
    assert Run(w, []) == w && Run(w, [k]) == Step(w, k);
    assert Run(w, [k, l]) == Step(Run(w, [k]), l);
    assert Run(w, [k, l, m]) == Step(Run(w, [k, l]), m);
  }

  /** A claim an attempt is done with, or done but for giving back, has a volume. */
  predicate Provided(w: World) {
    forall a :: a in w.attempts && (w.attempts[a].stage.Ended? || w.attempts[a].stage.Returning?) ==>
      "pvc-" + w.attempts[a].uid in w.volumes
  }

  /** Over any interleaving of calls that work: every claim an attempt has ended
      for has its volume object, and that names storage that is there. */
  lemma {:induction false} WorkingRunsProvide(w: World, moves: seq<Move>)
    requires Accounted(w) && Provided(w) && forall m :: m in moves ==> Working(m)
    ensures Provided(Run(w, moves))
    ensures var t := Run(w, moves);
            forall a :: a in t.attempts && t.attempts[a].stage.Ended? ==>
              var name := "pvc-" + t.attempts[a].uid; name in t.volumes && t.volumes[name] in t.storage
  {
    forall m | m in moves ensures Definite(m) { assert Working(m); }
    RunAccounted(w, moves);
    var t := Run(w, moves);
    if moves != [] {
      WorkingRunsProvide(w, moves[..|moves| - 1]);
      assert Working(moves[|moves| - 1]);
    }
    forall n | n in t.volumes ensures t.volumes[n] in t.storage { assert Names(t, t.volumes[n]); }
  }

  // ----- without definite errors -----

  /** Giving back deletes storage that a volume object names exactly when the
      volume object was made by a call that reported failure. */
  lemma GiveBackDestroys(w: World, a: nat, outcome: Outcome)
    requires Accounted(w) && a in w.attempts && w.attempts[a].stage.Holding?
    ensures var name, id := VolumeName(w.attempts[a].uid), w.attempts[a].stage.id;
            var t := Step(Step(w, MakeVolume(a, outcome)), GiveBack(a, Works));
            (Names(t, id) && id !in t.storage) <==> outcome.FailsAfter? && name !in w.volumes
  {
    var name, id := VolumeName(w.attempts[a].uid), w.attempts[a].stage.id;
    var t := Step(Step(w, MakeVolume(a, outcome)), GiveBack(a, Works));
    assert Holds(w, id);
    if name !in w.volumes && !outcome.FailsCleanly? {
      assert name in t.volumes && t.volumes[name] == id;
    } else {
      assert t.volumes == w.volumes && !Names(w, id);
    }
  }

  /** Nothing made yet is accounted for, so every run starts well. */
  lemma EmptyAccounted()
    ensures Accounted(World(map[], {}, map[], 0, {}))
  {
  }
}
