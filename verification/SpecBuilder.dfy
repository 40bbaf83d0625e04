/**
 The spec builder of cordium-go/spec.go: options that write entries into the
 keyed lists of a Workspace's spec. Writes says what each option writes; the
 class holds the options as the source has them.
 */
module SpecBuilder {
  import opened Prelude
  import opened KeyedList
  import opened SortedKeys

  // ---- The spec ----------------------------------------------------------

  datatype Var = Var(name: string, value: string)
  datatype EnvValue = Plain(value: string) | FromSecret(secret: string)
  datatype EnvVar = EnvVar(key: string, value: EnvValue)
  datatype App = App(name: string, port: int, displayName: string, isDefault: bool)
  datatype Mount = Mount(volume: string, path: string, readOnly: bool)
  datatype Feature = Feature(reference: string, options: seq<Var>)
  datatype TaskKind = OnCreate | PostStart | PreStop
  datatype OnFailure = Unset | Abort | Continue
  datatype Task = Task(name: string, run: string, kind: TaskKind, workingDir: string, env: seq<Var>,
                       background: bool, asRoot: bool, onFailure: OnFailure)

  datatype Spec = Spec(envVars: seq<EnvVar>, vars: seq<Var>, apps: seq<App>, mounts: seq<Mount>,
                       tasks: seq<Task>, features: seq<Feature>)

  const EMPTY: Spec := Spec([], [], [], [], [], [])

  function EnvKey(e: EnvVar): string { e.key }
  function VarKey(v: Var): string { v.name }
  function AppKey(a: App): string { a.name }
  function MountKey(m: Mount): string { m.path }
  function TaskKey(t: Task): string { t.name }
  function FeatureKey(f: Feature): string { f.reference }

  // ---- The options -------------------------------------------------------

  datatype AppOption = NilAppOption | AppDisplayName(displayName: string) | AsDefaultApp

  datatype TaskOption =
    | NilTaskOption
    | TaskWorkingDir(dir: string)
    | TaskEnv(key: string, value: string)
    | TaskInBackground
    | TaskAsRoot
    | TaskAbortOnFailure
    | TaskContinueOnFailure

  /** A map comes with the order in which it happens to be walked. */
  datatype SpecOption =
    | NilOption
    | FromSpec(spec: Option<Spec>)
    | WithEnv(key: string, value: string)
    | WithEnvs(entries: map<string, string>, walk: seq<string>)
    | WithEnvFromSecret(key: string, secret: string)
    | WithVar(name: string, value: string)
    | WithVars(entries: map<string, string>, walk: seq<string>)
    | WithApp(name: string, port: int, appOptions: seq<AppOption>)
    | WithPort(port: int)
    | WithVolume(name: string, path: string, readOnly: bool)
    | WithTask(kind: TaskKind, name: string, run: string, taskOptions: seq<TaskOption>)
    | WithFeature(reference: string, entries: map<string, string>, walk: seq<string>)

  predicate WalksItsMap(o: SpecOption) {
    o.WithEnvs? || o.WithVars? || o.WithFeature? ==> Walks(o.walk, o.entries.Keys)
  }

  // ---- What an option accepts and writes ---------------------------------

  predicate AcceptsTask(o: TaskOption) {
    o.TaskEnv? ==> o.key != "" && o.value != ""
  }

  predicate PortOk(port: int) {
    1 <= port <= 65535
  }

  predicate Accepts(o: SpecOption) {
    match o
    case NilOption => true
    case FromSpec(spec) => spec.Some?
    case WithEnv(key, value) => key != "" && value != ""
    case WithEnvs(entries, _) => forall k :: k in entries ==> k != "" && entries[k] != ""
    case WithEnvFromSecret(key, secret) => key != "" && secret != ""
    case WithVar(name, _) => name != ""
    case WithVars(entries, _) => "" !in entries
    case WithApp(name, port, _) => name != "" && PortOk(port)
    case WithPort(port) => PortOk(port)
    case WithVolume(name, path, _) => name != "" && path != "" && path[0] == '/'
    case WithTask(_, name, run, opts) => name != "" && run != "" && forall i :: 0 <= i < |opts| ==> AcceptsTask(opts[i])
    case WithFeature(reference, _, _) => reference != ""
  }

  /** The entries of a map, in the order of their keys. */
  function Entries(entries: map<string, string>, walk: seq<string>): (r: seq<Var>)
    requires Walks(walk, entries.Keys)
    ensures KeysOf(r, VarKey) == Sorted(walk)
    ensures forall i :: 0 <= i < |r| ==> r[i].name in entries && r[i].value == entries[r[i].name]
  {
    var ks := Sorted(walk);
    assert forall i :: 0 <= i < |ks| ==> ks[i] in ks;
    seq(|ks|, i requires 0 <= i < |ks| => Var(ks[i], entries[ks[i]]))
  }

  method SortedEntries(entries: map<string, string>, walk: seq<string>) returns (options: seq<Var>)
    requires Walks(walk, entries.Keys)
    ensures options == Entries(entries, walk)
  {
    var keys := KeysSorted(walk, entries.Keys);
    options := [];
    for i := 0 to |keys|
      invariant options == Entries(entries, walk)[..i]
    {
      assert keys[i] in keys;
      assert KeysOf(Entries(entries, walk), VarKey)[i] == Entries(entries, walk)[i].name;
      options := options + [Var(keys[i], entries[keys[i]])];
    }
    assert options == Entries(entries, walk);
  }

  function AsEnv(v: Var): EnvVar { EnvVar(v.name, Plain(v.value)) }

  function AsEnvs(vs: seq<Var>): (r: seq<EnvVar>)
    ensures |r| == |vs| && forall i :: 0 <= i < |r| ==> r[i] == AsEnv(vs[i])
  {
    seq(|vs|, i requires 0 <= i < |vs| => AsEnv(vs[i]))
  }

  function SetApp(a: App, o: AppOption): App {
    match o
    case NilAppOption => a
    case AppDisplayName(displayName) => a.(displayName := displayName)
    case AsDefaultApp => a.(isDefault := true)
  }

  function SetAppAll(a: App, opts: seq<AppOption>): App {
    if opts == [] then a else SetApp(SetAppAll(a, opts[..|opts| - 1]), opts[|opts| - 1])
  }

  function SetTask(t: Task, o: TaskOption): Task {
    match o
    case NilTaskOption => t
    case TaskWorkingDir(dir) => t.(workingDir := dir)
    case TaskEnv(key, value) => t.(env := Upserted(t.env, Var(key, value), VarKey))
    case TaskInBackground => t.(background := true)
    case TaskAsRoot => t.(asRoot := true)
    case TaskAbortOnFailure => t.(onFailure := Abort)
    case TaskContinueOnFailure => t.(onFailure := Continue)
  }

  function SetTaskAll(t: Task, opts: seq<TaskOption>): Task {
    if opts == [] then t else SetTask(SetTaskAll(t, opts[..|opts| - 1]), opts[|opts| - 1])
  }

  function NewTask(kind: TaskKind, name: string, run: string): Task {
    Task(name, run, kind, "", [], false, false, Unset)
  }

  /** The entries that an option writes, in order. */
  function Writes(o: SpecOption): Spec
    requires WalksItsMap(o)
  {
    match o
    case NilOption => EMPTY
    case FromSpec(_) => EMPTY
    case WithEnv(key, value) => EMPTY.(envVars := [EnvVar(key, Plain(value))])
    case WithEnvs(entries, walk) => EMPTY.(envVars := AsEnvs(Entries(entries, walk)))
    case WithEnvFromSecret(key, secret) => EMPTY.(envVars := [EnvVar(key, FromSecret(secret))])
    case WithVar(name, value) => EMPTY.(vars := [Var(name, value)])
    case WithVars(entries, walk) => EMPTY.(vars := Entries(entries, walk))
    case WithApp(name, port, opts) => EMPTY.(apps := [SetAppAll(App(name, port, "", false), opts)])
    case WithPort(port) => EMPTY.(apps := [App("port-" + PortText(port), port, "", false)])
    case WithVolume(name, path, readOnly) => EMPTY.(mounts := [Mount(name, path, readOnly)])
    case WithTask(kind, name, run, opts) => EMPTY.(tasks := [SetTaskAll(NewTask(kind, name, run), opts)])
    case WithFeature(reference, entries, walk) => EMPTY.(features := [Feature(reference, Entries(entries, walk))])
  }

  function PortText(port: int): string {
    if port < 0 then "-" + Decimal(-port) else Decimal(port)
  }

  /** All of the writes go into their lists. */
  function Upserts(s: Spec, w: Spec): Spec {
    Spec(UpsertAll(s.envVars, w.envVars, EnvKey), UpsertAll(s.vars, w.vars, VarKey), UpsertAll(s.apps, w.apps, AppKey),
         UpsertAll(s.mounts, w.mounts, MountKey), UpsertAll(s.tasks, w.tasks, TaskKey),
         UpsertAll(s.features, w.features, FeatureKey))
  }

  function Applied(s: Spec, o: SpecOption): Spec
    requires WalksItsMap(o)
  {
    if o.FromSpec? && o.spec.Some? then o.spec.value else Upserts(s, Writes(o))
  }

  predicate AllWalk(opts: seq<SpecOption>) {
    forall i :: 0 <= i < |opts| ==> WalksItsMap(opts[i])
  }

  predicate AllAccepted(opts: seq<SpecOption>) {
    forall i :: 0 <= i < |opts| ==> Accepts(opts[i])
  }

  function AppliedAll(s: Spec, opts: seq<SpecOption>): Spec
    requires AllWalk(opts)
  {
    if opts == [] then s else Applied(AppliedAll(s, opts[..|opts| - 1]), opts[|opts| - 1])
  }

  // ---- The builder -------------------------------------------------------

  lemma {:induction false} UpsertOne<T, K>(items: seq<T>, item: T, key: T -> K)
    ensures UpsertAll(items, [item], key) == Upserted(items, item, key)
    ensures UpsertAll(items, [], key) == items
  {
    assert [item][..0] == [];
  }

  lemma {:induction false} UpsertNext<T, K>(items: seq<T>, writes: seq<T>, i: nat, key: T -> K)
    requires i < |writes|
    ensures UpsertAll(items, writes[..i + 1], key) == Upserted(UpsertAll(items, writes[..i], key), writes[i], key)
  {
    assert writes[..i + 1][..i] == writes[..i];
  }

  class Builder {
    var envVars: seq<EnvVar>
    var vars: seq<Var>
    var apps: seq<App>
    var mounts: seq<Mount>
    var tasks: seq<Task>
    var features: seq<Feature>

    function Contents(): Spec
      reads this
    {
      Spec(envVars, vars, apps, mounts, tasks, features)
    }

    constructor ()
      ensures Contents() == EMPTY
    {
      envVars, vars, apps, mounts, tasks, features := [], [], [], [], [], [];
    }

    method SetEnv(env: EnvVar)
      modifies this
      ensures Contents() == old(Contents()).(envVars := Upserted(old(envVars), env, EnvKey))
    {
      envVars := Upsert(envVars, env, EnvKey);
    }

    method ApplyEnv(key: string, value: string) returns (ok: bool)
      modifies this
      ensures ok == (key != "" && value != "")
      ensures ok ==> Contents() == old(Contents()).(envVars := Upserted(old(envVars), EnvVar(key, Plain(value)), EnvKey))
      ensures !ok ==> Contents() == old(Contents())
    {
      if key == "" || value == "" {
        return false;
      }
      SetEnv(EnvVar(key, Plain(value)));
      ok := true;
    }

    /** The keys are gone through in their sorted order, up to the first entry that is refused. */
    method ApplyEnvs(entries: map<string, string>, walk: seq<string>) returns (ok: bool)
      requires Walks(walk, entries.Keys)
      modifies this
      ensures ok == Accepts(WithEnvs(entries, walk))
      ensures ok ==>
        Contents() == old(Contents()).(envVars := UpsertAll(old(envVars), AsEnvs(Entries(entries, walk)), EnvKey))
    {
      var keys := KeysSorted(walk, entries.Keys);
      ghost var ws := AsEnvs(Entries(entries, walk));
      for i := 0 to |keys|
        invariant Contents() == old(Contents()).(envVars := UpsertAll(old(envVars), ws[..i], EnvKey))
        invariant forall j :: 0 <= j < i ==> keys[j] != "" && entries[keys[j]] != ""
      {
        assert keys[i] in keys;
        UpsertNext(old(envVars), ws, i, EnvKey);
        var done := ApplyEnv(keys[i], entries[keys[i]]);
        if !done {
          return false;
        }
      }
      assert ws[..|keys|] == ws;
      forall k | k in entries ensures k != "" && entries[k] != "" {
        assert k in keys;
      }
      ok := true;
    }

    method ApplyEnvFromSecret(key: string, secret: string) returns (ok: bool)
      modifies this
      ensures ok == Accepts(WithEnvFromSecret(key, secret))
      ensures ok ==>
        Contents() == old(Contents()).(envVars := Upserted(old(envVars), EnvVar(key, FromSecret(secret)), EnvKey))
    {
      if key == "" || secret == "" {
        return false;
      }
      SetEnv(EnvVar(key, FromSecret(secret)));
      ok := true;
    }

    method ApplyVar(name: string, value: string) returns (ok: bool)
      modifies this
      ensures ok == (name != "")
      ensures ok ==> Contents() == old(Contents()).(vars := Upserted(old(vars), Var(name, value), VarKey))
    {
      if name == "" {
        return false;
      }
      vars := Upsert(vars, Var(name, value), VarKey);
      ok := true;
    }

    method ApplyVars(entries: map<string, string>, walk: seq<string>) returns (ok: bool)
      requires Walks(walk, entries.Keys)
      modifies this
      ensures ok == Accepts(WithVars(entries, walk))
      ensures ok ==> Contents() == old(Contents()).(vars := UpsertAll(old(vars), Entries(entries, walk), VarKey))
    {
      var keys := KeysSorted(walk, entries.Keys);
      ghost var ws := Entries(entries, walk);
      for i := 0 to |keys|
        invariant Contents() == old(Contents()).(vars := UpsertAll(old(vars), ws[..i], VarKey))
        invariant forall j :: 0 <= j < i ==> keys[j] != ""
      {
        assert keys[i] in keys;
        assert ws[i] == Var(keys[i], entries[keys[i]]) by {
          assert KeysOf(ws, VarKey)[i] == ws[i].name;
        }
        UpsertNext(old(vars), ws, i, VarKey);
        var done := ApplyVar(keys[i], entries[keys[i]]);
        if !done {
          return false;
        }
      }
      assert ws[..|keys|] == ws;
      ok := true;
    }

    method ApplyApp(name: string, port: int, opts: seq<AppOption>) returns (ok: bool)
      modifies this
      ensures ok == Accepts(WithApp(name, port, opts))
      ensures ok ==>
        Contents() == old(Contents()).(apps := Upserted(old(apps), SetAppAll(App(name, port, "", false), opts), AppKey))
    {
      if name == "" || port < 1 || port > 65535 {
        return false;
      }
      var app := App(name, port, "", false);
      for i := 0 to |opts|
        invariant app == SetAppAll(App(name, port, "", false), opts[..i])
      {
        assert opts[..i + 1][..i] == opts[..i];
        app := SetApp(app, opts[i]);
      }
      assert opts[..|opts|] == opts;
      apps := Upsert(apps, app, AppKey);
      ok := true;
    }

    method ApplyPort(port: int) returns (ok: bool)
      modifies this
      ensures ok == PortOk(port)
      ensures ok ==>
        Contents() == old(Contents()).(apps := Upserted(old(apps), App("port-" + PortText(port), port, "", false), AppKey))
    {
      if port < 1 || port > 65535 {
        return false;
      }
      ok := ApplyApp("port-" + PortText(port), port, []);
    }

    method ApplyVolume(name: string, path: string, readOnly: bool) returns (ok: bool)
      modifies this
      ensures ok == Accepts(WithVolume(name, path, readOnly))
      ensures ok ==> Contents() == old(Contents()).(mounts := Upserted(old(mounts), Mount(name, path, readOnly), MountKey))
    {
      if name == "" {
        return false;
      }
      if path == "" {
        return false;
      }
      if path[0] != '/' {
        return false;
      }
      mounts := Upsert(mounts, Mount(name, path, readOnly), MountKey);
      ok := true;
    }

    method ApplyTask(kind: TaskKind, name: string, run: string, opts: seq<TaskOption>) returns (ok: bool)
      modifies this
      ensures ok == Accepts(WithTask(kind, name, run, opts))
      ensures ok ==>
        Contents() == old(Contents()).(tasks := Upserted(old(tasks), SetTaskAll(NewTask(kind, name, run), opts), TaskKey))
    {
      if name == "" || run == "" {
        return false;
      }
      var task := NewTask(kind, name, run);
      for i := 0 to |opts|
        invariant task == SetTaskAll(NewTask(kind, name, run), opts[..i]) && task.name == name
        invariant forall j :: 0 <= j < i ==> AcceptsTask(opts[j])
        invariant Contents() == old(Contents())
      {
        assert opts[..i + 1][..i] == opts[..i];
        if !AcceptsTask(opts[i]) {
          return false;
        }
        if opts[i].TaskEnv? {
          var env := Upsert(task.env, Var(opts[i].key, opts[i].value), VarKey);
          task := task.(env := env);
        } else {
          task := SetTask(task, opts[i]);
        }
      }
      assert opts[..|opts|] == opts;
      tasks := Upsert(tasks, task, TaskKey);
      ok := true;
    }

    method ApplyFeature(reference: string, entries: map<string, string>, walk: seq<string>) returns (ok: bool)
      requires Walks(walk, entries.Keys)
      modifies this
      ensures ok == (reference != "")
      ensures ok ==>
        Contents() == old(Contents()).(features := Upserted(old(features), Feature(reference, Entries(entries, walk)), FeatureKey))
    {
      if reference == "" {
        return false;
      }
      var options := SortedEntries(entries, walk);
      features := Upsert(features, Feature(reference, options), FeatureKey);
      ok := true;
    }

    method ApplyEnvOption(o: SpecOption) returns (ok: bool)
      requires WalksItsMap(o) && (o.WithEnv? || o.WithEnvs? || o.WithEnvFromSecret?)
      modifies this
      ensures ok == Accepts(o)
      ensures ok ==> Contents() == Applied(old(Contents()), o)
    {
      match o
      case WithEnv(key, value) =>
        UpsertOne(envVars, EnvVar(key, Plain(value)), EnvKey);
        ok := ApplyEnv(key, value);
      case WithEnvs(entries, walk) =>
        ok := ApplyEnvs(entries, walk);
      case WithEnvFromSecret(key, secret) =>
        UpsertOne(envVars, EnvVar(key, FromSecret(secret)), EnvKey);
        ok := ApplyEnvFromSecret(key, secret);
    }

    method ApplyRuntimeOption(o: SpecOption) returns (ok: bool)
      requires WalksItsMap(o) && (o.WithVolume? || o.WithTask? || o.WithFeature?)
      modifies this
      ensures ok == Accepts(o)
      ensures ok ==> Contents() == Applied(old(Contents()), o)
    {
      match o
      case WithVolume(name, path, readOnly) =>
        UpsertOne(mounts, Mount(name, path, readOnly), MountKey);
        ok := ApplyVolume(name, path, readOnly);
      case WithTask(kind, name, run, opts) =>
        UpsertOne(tasks, SetTaskAll(NewTask(kind, name, run), opts), TaskKey);
        ok := ApplyTask(kind, name, run, opts);
      case WithFeature(reference, entries, walk) =>
        UpsertOne(features, Feature(reference, Entries(entries, walk)), FeatureKey);
        ok := ApplyFeature(reference, entries, walk);
    }

    method ApplySpecOption(o: SpecOption) returns (ok: bool)
      requires WalksItsMap(o) && (o.WithVar? || o.WithVars? || o.WithApp? || o.WithPort?)
      modifies this
      ensures ok == Accepts(o)
      ensures ok ==> Contents() == Applied(old(Contents()), o)
    {
      match o
      case WithVar(name, value) =>
        UpsertOne(vars, Var(name, value), VarKey);
        ok := ApplyVar(name, value);
      case WithVars(entries, walk) =>
        ok := ApplyVars(entries, walk);
      case WithApp(name, port, opts) =>
        UpsertOne(apps, SetAppAll(App(name, port, "", false), opts), AppKey);
        ok := ApplyApp(name, port, opts);
      case WithPort(port) =>
        UpsertOne(apps, App("port-" + PortText(port), port, "", false), AppKey);
        ok := ApplyPort(port);
    }

    /** One option: it is refused exactly if Accepts says so, and otherwise writes what Writes says. */
    method Apply(o: SpecOption) returns (ok: bool)
      requires WalksItsMap(o)
      modifies this
      ensures ok == Accepts(o)
      ensures ok ==> Contents() == Applied(old(Contents()), o)
    {
      if o.NilOption? {
        ok := true;
      } else if o.FromSpec? {
        if o.spec.None? {
          return false;
        }
        var s := o.spec.value;
        envVars, vars, apps, mounts, tasks, features := s.envVars, s.vars, s.apps, s.mounts, s.tasks, s.features;
        ok := true;
      } else if o.WithEnv? || o.WithEnvs? || o.WithEnvFromSecret? {
        ok := ApplyEnvOption(o);
      } else if o.WithVolume? || o.WithTask? || o.WithFeature? {
        ok := ApplyRuntimeOption(o);
      } else {
        ok := ApplySpecOption(o);
      }
    }
  }

  /** newSpecBuilder: the first option that is refused ends the building with its error. */
  method NewSpecBuilder(opts: seq<SpecOption>) returns (r: Result<Spec, nat>)
    requires AllWalk(opts)
    ensures r.Ok? <==> AllAccepted(opts)
    ensures r.Ok? ==> r.value == AppliedAll(EMPTY, opts)
    ensures r.Err? ==> r.error < |opts| && !Accepts(opts[r.error]) && AllAccepted(opts[..r.error])
  {
    var builder := new Builder();
    for i := 0 to |opts|
      invariant AllAccepted(opts[..i]) && AllWalk(opts[..i])
      invariant builder.Contents() == AppliedAll(EMPTY, opts[..i])
    {
      assert opts[..i + 1][..i] == opts[..i];
      var ok := builder.Apply(opts[i]);
      if !ok {
        return Err(i);
      }
    }
    assert opts[..|opts|] == opts;
    r := Ok(builder.Contents());
  }
}
