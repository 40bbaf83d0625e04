/**
 What a sequence of spec options amounts to: ordered maps, one for each keyed
 list, that no walk over an input map can change.
 */
module SpecRefinement {
  import opened Prelude
  import opened KeyedList
  import opened SortedKeys
  import opened SpecBuilder

  // ---- All writes of a run -----------------------------------------------

  function Appended(a: Spec, b: Spec): Spec {
    Spec(a.envVars + b.envVars, a.vars + b.vars, a.apps + b.apps, a.mounts + b.mounts, a.tasks + b.tasks,
         a.features + b.features)
  }

  /** Everything that the options write, in order. */
  function AllWrites(opts: seq<SpecOption>): Spec
    requires AllWalk(opts)
  {
    if opts == [] then EMPTY else Appended(AllWrites(opts[..|opts| - 1]), Writes(opts[|opts| - 1]))
  }

  /** No option replaces the spec. */
  predicate OnTop(opts: seq<SpecOption>) {
    forall i :: 0 <= i < |opts| ==> !(opts[i].FromSpec? && opts[i].spec.Some?)
  }

  lemma {:induction false} UpsertsAppend(s: Spec, a: Spec, b: Spec)
    ensures Upserts(s, Appended(a, b)) == Upserts(Upserts(s, a), b)
  {
    UpsertAllAppend(s.envVars, a.envVars, b.envVars, EnvKey);
    UpsertAllAppend(s.vars, a.vars, b.vars, VarKey);
    UpsertAllAppend(s.apps, a.apps, b.apps, AppKey);
    UpsertAllAppend(s.mounts, a.mounts, b.mounts, MountKey);
    UpsertAllAppend(s.tasks, a.tasks, b.tasks, TaskKey);
    UpsertAllAppend(s.features, a.features, b.features, FeatureKey);
  }

  /** A run of options is one run of upserts on each list. */
  lemma {:induction false} RunIsUpserts(s: Spec, opts: seq<SpecOption>)
    requires AllWalk(opts) && OnTop(opts)
    ensures AppliedAll(s, opts) == Upserts(s, AllWrites(opts))
  {
    if opts != [] {
      var front, last := opts[..|opts| - 1], opts[|opts| - 1];
      RunIsUpserts(s, front);
      UpsertsAppend(s, AllWrites(front), Writes(last));
    }
  }

  /** One list refines an ordered map under a run of writes. */
  ghost predicate Refines<T(!new), K(!new)>(before: seq<T>, writes: seq<T>, after: seq<T>, key: T -> K) {
    && OrderKept(KeysOf(before, key), KeysOf(writes, key), KeysOf(after, key))
    && (forall k :: Lookup(after, k, key) ==
                    if LastWith(writes, k, key).Some? then LastWith(writes, k, key) else Lookup(before, k, key))
    && (forall i :: 0 <= i < |before| && key(before[i]) !in KeysOf(writes, key) ==> i < |after| && after[i] == before[i])
  }

  lemma {:induction false} UpsertsRefine<T(!new), K(!new)>(before: seq<T>, writes: seq<T>, key: T -> K)
    ensures Refines(before, writes, UpsertAll(before, writes, key), key)
  {
    var after := UpsertAll(before, writes, key);
    KeysOfUpserts(before, writes, key);
    AddKeysKeepOrder(KeysOf(before, key), KeysOf(writes, key));
    forall k ensures Lookup(after, k, key) ==
        if LastWith(writes, k, key).Some? then LastWith(writes, k, key) else Lookup(before, k, key) {
      UpsertsLookup(before, writes, key, k);
    }
    forall i | 0 <= i < |before| && key(before[i]) !in KeysOf(writes, key)
      ensures i < |after| && after[i] == before[i] {
      UpsertsLeaveOthers(before, writes, key, i);
    }
  }

  ghost predicate SpecRefines(before: Spec, writes: Spec, after: Spec) {
    && Refines(before.envVars, writes.envVars, after.envVars, EnvKey)
    && Refines(before.vars, writes.vars, after.vars, VarKey)
    && Refines(before.apps, writes.apps, after.apps, AppKey)
    && Refines(before.mounts, writes.mounts, after.mounts, MountKey)
    && Refines(before.tasks, writes.tasks, after.tasks, TaskKey)
    && Refines(before.features, writes.features, after.features, FeatureKey)
  }

  /** A run of options on top of a spec: every list behaves as a map that remembers the order of its keys. */
  lemma {:induction false} WritesRefineOrderedMaps(s: Spec, opts: seq<SpecOption>)
    requires AllWalk(opts) && OnTop(opts)
    ensures SpecRefines(s, AllWrites(opts), AppliedAll(s, opts))
  {
    var w := AllWrites(opts);
    RunIsUpserts(s, opts);
    UpsertsRefine(s.envVars, w.envVars, EnvKey);
    UpsertsRefine(s.vars, w.vars, VarKey);
    UpsertsRefine(s.apps, w.apps, AppKey);
    UpsertsRefine(s.mounts, w.mounts, MountKey);
    UpsertsRefine(s.tasks, w.tasks, TaskKey);
    UpsertsRefine(s.features, w.features, FeatureKey);
  }

  /** The number of options up to the last one that replaces the spec, that one included. */
  function LastBase(opts: seq<SpecOption>): (n: nat)
    ensures n <= |opts|
    ensures n > 0 ==> opts[n - 1].FromSpec? && opts[n - 1].spec.Some?
    ensures forall i :: n <= i < |opts| ==> !(opts[i].FromSpec? && opts[i].spec.Some?)
  {
    if opts == [] then 0
    else if opts[|opts| - 1].FromSpec? && opts[|opts| - 1].spec.Some? then |opts|
    else LastBase(opts[..|opts| - 1])
  }

  /** The spec that the writes of a run go into. */
  function BaseOf(s: Spec, opts: seq<SpecOption>): Spec {
    var n := LastBase(opts);
    if n == 0 then s else opts[n - 1].spec.value
  }

  lemma {:induction false} AppliedAppend(s: Spec, a: seq<SpecOption>, b: seq<SpecOption>)
    requires AllWalk(a) && AllWalk(b)
    ensures AllWalk(a + b) && AppliedAll(s, a + b) == AppliedAll(AppliedAll(s, a), b)
    decreases |b|
  {
    if b == [] {
      assert a + b == a;
    } else {
      var front, last := b[..|b| - 1], b[|b| - 1];
      AppliedAppend(s, a, front);
      assert (a + b)[..|a + b| - 1] == a + front && (a + b)[|a + b| - 1] == last;
    }
  }

  /** Nothing that comes before the last replacement matters. */
  lemma {:induction false} BaseIsApplied(s: Spec, opts: seq<SpecOption>)
    requires AllWalk(opts)
    ensures AppliedAll(s, opts[..LastBase(opts)]) == BaseOf(s, opts)
  {
    var n := LastBase(opts);
    if n > 0 {
      assert opts[..n][..n - 1] == opts[..n - 1];
    }
  }

  /**
   Any run of options, on any spec: it starts from the last spec that a FromSpec
   has put in, and every list behaves as a map that remembers the order of its keys.
   */
  lemma {:induction false} OptionsRefineOrderedMaps(s: Spec, opts: seq<SpecOption>)
    requires AllWalk(opts)
    ensures SpecRefines(BaseOf(s, opts), AllWrites(opts[LastBase(opts)..]), AppliedAll(s, opts))
  {
    var n := LastBase(opts);
    BaseIsApplied(s, opts);
    AppliedAppend(s, opts[..n], opts[n..]);
    assert opts[..n] + opts[n..] == opts;
    WritesRefineOrderedMaps(BaseOf(s, opts), opts[n..]);
  }

  predicate DistinctKeys(s: Spec) {
    && Distinct(KeysOf(s.envVars, EnvKey)) && Distinct(KeysOf(s.vars, VarKey)) && Distinct(KeysOf(s.apps, AppKey))
    && Distinct(KeysOf(s.mounts, MountKey)) && Distinct(KeysOf(s.tasks, TaskKey))
    && Distinct(KeysOf(s.features, FeatureKey))
  }

  lemma {:induction false} KeysStayDistinct<T, K(!new)>(items: seq<T>, writes: seq<T>, key: T -> K)
    requires Distinct(KeysOf(items, key))
    ensures Distinct(KeysOf(UpsertAll(items, writes, key), key))
  {
    KeysOfUpserts(items, writes, key);
    AddKeysKeepOrder(KeysOf(items, key), KeysOf(writes, key));
  }

  /** No key comes twice in any list, as long as the specs that are started from are sound. */
  lemma {:induction false} KeysAreDistinct(s: Spec, opts: seq<SpecOption>)
    requires AllWalk(opts) && DistinctKeys(s)
    requires forall i :: 0 <= i < |opts| && opts[i].FromSpec? && opts[i].spec.Some? ==> DistinctKeys(opts[i].spec.value)
    ensures DistinctKeys(AppliedAll(s, opts))
  {
    if opts != [] {
      var front, last := opts[..|opts| - 1], opts[|opts| - 1];
      KeysAreDistinct(s, front);
      var t := AppliedAll(s, front);
      var w := Writes(last);
      KeysStayDistinct(t.envVars, w.envVars, EnvKey);
      KeysStayDistinct(t.vars, w.vars, VarKey);
      KeysStayDistinct(t.apps, w.apps, AppKey);
      KeysStayDistinct(t.mounts, w.mounts, MountKey);
      KeysStayDistinct(t.tasks, w.tasks, TaskKey);
      KeysStayDistinct(t.features, w.features, FeatureKey);
    }
  }

  // ---- Walks over maps ---------------------------------------------------

  /** The same option, but for the order in which its map is walked. */
  predicate SameButWalk(a: SpecOption, b: SpecOption) {
    match (a, b)
    case (WithEnvs(m, _), WithEnvs(n, _)) => m == n
    case (WithVars(m, _), WithVars(n, _)) => m == n
    case (WithFeature(r, m, _), WithFeature(q, n, _)) => r == q && m == n
    case _ => a == b
  }

  lemma {:induction false} SameWrites(a: SpecOption, b: SpecOption)
    requires WalksItsMap(a) && WalksItsMap(b) && SameButWalk(a, b)
    ensures Writes(a) == Writes(b) && Accepts(a) == Accepts(b)
  {
    if a.WithEnvs? || a.WithVars? || a.WithFeature? {
      WalkDoesNotMatter(a.walk, b.walk, a.entries.Keys);
      assert Entries(a.entries, a.walk) == Entries(b.entries, b.walk);
    }
  }

  /** Identical maps give an identical spec, in whatever order they are walked. */
  lemma {:induction false} WalksDoNotMatter(s: Spec, a: seq<SpecOption>, b: seq<SpecOption>)
    requires AllWalk(a) && AllWalk(b) && |a| == |b|
    requires forall i :: 0 <= i < |a| ==> SameButWalk(a[i], b[i])
    ensures AppliedAll(s, a) == AppliedAll(s, b) && (AllAccepted(a) <==> AllAccepted(b))
  {
    if a != [] {
      var n := |a| - 1;
      WalksDoNotMatter(s, a[..n], b[..n]);
      SameWrites(a[n], b[n]);
      assert AllAccepted(a) <==> AllAccepted(a[..n]) && Accepts(a[n]);
      assert AllAccepted(b) <==> AllAccepted(b[..n]) && Accepts(b[n]);
    }
  }

  // ---- What an accepted spec holds ---------------------------------------

  predicate SoundTask(t: Task) {
    && t.name != "" && t.run != "" && Distinct(KeysOf(t.env, VarKey))
    && forall v :: v in t.env ==> v.name != "" && v.value != ""
  }

  predicate Sound(s: Spec) {
    && (forall e :: e in s.envVars ==> e.key != "" && (match e.value case Plain(v) => v != "" case FromSecret(n) => n != ""))
    && (forall v :: v in s.vars ==> v.name != "")
    && (forall a :: a in s.apps ==> a.name != "" && PortOk(a.port))
    && (forall m :: m in s.mounts ==> m.volume != "" && HasRoot(m.path))
    && (forall t :: t in s.tasks ==> SoundTask(t))
    && (forall f :: f in s.features ==> f.reference != "")
  }

  predicate HasRoot(path: string) {
    path != "" && path[0] == '/'
  }

  lemma {:induction false} AppKeepsItsName(a: App, opts: seq<AppOption>)
    ensures SetAppAll(a, opts).name == a.name && SetAppAll(a, opts).port == a.port
  {
    if opts != [] {
      AppKeepsItsName(a, opts[..|opts| - 1]);
    }
  }

  /** A task keeps its name and command, and its environment is an ordered map as well. */
  lemma {:induction false} TaskIsSound(t: Task, opts: seq<TaskOption>)
    requires SoundTask(t) && forall i :: 0 <= i < |opts| ==> AcceptsTask(opts[i])
    ensures SoundTask(SetTaskAll(t, opts)) && SetTaskAll(t, opts).name == t.name
  {
    if opts != [] {
      var front, o := opts[..|opts| - 1], opts[|opts| - 1];
      TaskIsSound(t, front);
      var u := SetTaskAll(t, front);
      if o.TaskEnv? {
        var v := Var(o.key, o.value);
        UpsertOne(u.env, v, VarKey);
        KeysStayDistinct(u.env, [v], VarKey);
      }
    }
  }

  lemma {:induction false} WritesAreSound(o: SpecOption)
    requires WalksItsMap(o) && Accepts(o)
    ensures Sound(Writes(o))
  {
    match o
    case WithEnvs(entries, walk) =>
      var vs := Entries(entries, walk);
      forall e | e in AsEnvs(vs) ensures e.key != "" && e.value.Plain? && e.value.value != "" {
        var i :| 0 <= i < |vs| && AsEnvs(vs)[i] == e;
        assert vs[i].name in entries;
      }
    case WithApp(name, port, opts) =>
      AppKeepsItsName(App(name, port, "", false), opts);
    case WithTask(kind, name, run, opts) =>
      TaskIsSound(NewTask(kind, name, run), opts);
    case _ =>
  }

  lemma {:induction false} UpsertsStaySound(s: Spec, w: Spec)
    requires Sound(s) && Sound(w)
    ensures Sound(Upserts(s, w))
  {
    var t := Upserts(s, w);
    forall x | x in t.envVars ensures x in s.envVars || x in w.envVars {
      UpsertsInventNothing(s.envVars, w.envVars, EnvKey, x);
    }
    forall x | x in t.vars ensures x in s.vars || x in w.vars {
      UpsertsInventNothing(s.vars, w.vars, VarKey, x);
    }
    forall x | x in t.apps ensures x in s.apps || x in w.apps {
      UpsertsInventNothing(s.apps, w.apps, AppKey, x);
    }
    forall x | x in t.mounts ensures x in s.mounts || x in w.mounts {
      UpsertsInventNothing(s.mounts, w.mounts, MountKey, x);
    }
    forall x | x in t.tasks ensures x in s.tasks || x in w.tasks {
      UpsertsInventNothing(s.tasks, w.tasks, TaskKey, x);
    }
    forall x | x in t.features ensures x in s.features || x in w.features {
      UpsertsInventNothing(s.features, w.features, FeatureKey, x);
    }
  }

  /** What the builder accepts keeps every rule that the options check, entry by entry. */
  lemma {:induction false} AcceptedSpecIsSound(s: Spec, opts: seq<SpecOption>)
    requires AllWalk(opts) && AllAccepted(opts) && Sound(s)
    requires forall i :: 0 <= i < |opts| && opts[i].FromSpec? ==> Sound(opts[i].spec.value)
    ensures Sound(AppliedAll(s, opts))
  {
    if opts != [] {
      var front, last := opts[..|opts| - 1], opts[|opts| - 1];
      AcceptedSpecIsSound(s, front);
      WritesAreSound(last);
      UpsertsStaySound(AppliedAll(s, front), Writes(last));
    }
  }

  // ---- What an entry's own options leave in it ---------------------------

  predicate OnFailureOption(o: TaskOption) {
    o.TaskAbortOnFailure? || o.TaskContinueOnFailure?
  }

  /** The last failure option decides, and Unset is left without one. */
  function LastOnFailure(opts: seq<TaskOption>): OnFailure {
    match LastIndex(opts, OnFailureOption)
    case None => Unset
    case Some(i) => if opts[i].TaskAbortOnFailure? then Abort else Continue
  }

  function LastDir(opts: seq<TaskOption>): string {
    match LastIndex(opts, (o: TaskOption) => o.TaskWorkingDir?)
    case None => ""
    case Some(i) => if opts[i].TaskWorkingDir? then opts[i].dir else ""
  }

  /** The environment entries of a task's options, in order. */
  function TaskEnvs(opts: seq<TaskOption>): seq<Var> {
    if opts == [] then []
    else
      var o := opts[|opts| - 1];
      TaskEnvs(opts[..|opts| - 1]) + (if o.TaskEnv? then [Var(o.key, o.value)] else [])
  }

  lemma {:induction false} TaskEnvIs(t: Task, opts: seq<TaskOption>)
    ensures SetTaskAll(t, opts).env == UpsertAll(t.env, TaskEnvs(opts), VarKey)
  {
    if opts != [] {
      var front, o := opts[..|opts| - 1], opts[|opts| - 1];
      TaskEnvIs(t, front);
      if o.TaskEnv? {
        UpsertAllAppend(t.env, TaskEnvs(front), [Var(o.key, o.value)], VarKey);
        UpsertOne(SetTaskAll(t, front).env, Var(o.key, o.value), VarKey);
      } else {
        assert TaskEnvs(front) + [] == TaskEnvs(front);
      }
    }
  }

  predicate TaskFieldsAre(t: Task, kind: TaskKind, name: string, run: string, opts: seq<TaskOption>) {
    && t.name == name && t.run == run && t.kind == kind
    && t.workingDir == LastDir(opts) && t.onFailure == LastOnFailure(opts)
    && (t.background <==> exists i :: 0 <= i < |opts| && opts[i].TaskInBackground?)
    && (t.asRoot <==> exists i :: 0 <= i < |opts| && opts[i].TaskAsRoot?)
  }

  lemma {:induction false} TaskFieldsNext(t: Task, kind: TaskKind, name: string, run: string, opts: seq<TaskOption>,
                                          o: TaskOption)
    requires TaskFieldsAre(t, kind, name, run, opts)
    ensures TaskFieldsAre(SetTask(t, o), kind, name, run, opts + [o])
  {
    var all := opts + [o];
    assert all[..|opts|] == opts && all[|opts|] == o;
    assert forall i :: 0 <= i < |opts| ==> all[i] == opts[i];
  }

  lemma {:induction false} TaskFields(kind: TaskKind, name: string, run: string, opts: seq<TaskOption>)
    ensures TaskFieldsAre(SetTaskAll(NewTask(kind, name, run), opts), kind, name, run, opts)
  {
    if opts != [] {
      var front, o := opts[..|opts| - 1], opts[|opts| - 1];
      assert opts == front + [o];
      TaskFields(kind, name, run, front);
      TaskFieldsNext(SetTaskAll(NewTask(kind, name, run), front), kind, name, run, front, o);
    }
  }

  /**
   What WithTask's options leave in the task: the last working directory and the
   last of the failure options, the flags that are asked for, and an environment
   that is an ordered map of its entries.
   */
  lemma {:induction false} TaskIsAsItsOptionsSay(kind: TaskKind, name: string, run: string, opts: seq<TaskOption>)
    ensures var t := SetTaskAll(NewTask(kind, name, run), opts);
            TaskFieldsAre(t, kind, name, run, opts) && Refines([], TaskEnvs(opts), t.env, VarKey)
  {
    TaskFields(kind, name, run, opts);
    TaskEnvIs(NewTask(kind, name, run), opts);
    UpsertsRefine([], TaskEnvs(opts), VarKey);
  }

  function LastDisplayName(opts: seq<AppOption>): string {
    match LastIndex(opts, (o: AppOption) => o.AppDisplayName?)
    case None => ""
    case Some(i) => if opts[i].AppDisplayName? then opts[i].displayName else ""
  }

  /** What WithApp's options leave in the application. */
  lemma {:induction false} AppIsAsItsOptionsSay(name: string, port: int, opts: seq<AppOption>)
    ensures var a := SetAppAll(App(name, port, "", false), opts);
            && a.name == name && a.port == port && a.displayName == LastDisplayName(opts)
            && (a.isDefault <==> exists i :: 0 <= i < |opts| && opts[i].AsDefaultApp?)
  {
    if opts != [] {
      var front, o := opts[..|opts| - 1], opts[|opts| - 1];
      AppIsAsItsOptionsSay(name, port, front);
      assert forall i :: 0 <= i < |front| ==> opts[i] == front[i];
    }
  }
}
