/**
 The publish-once key file: any number of creators run `load_or_create_private_bytes` on one path, each
 file-system operation one step, in any interleaving; operations fail and creators die at any point.
 A file is an inode; the path and the temporary names refer to inodes, and a hard link shares one.
 */
module KeyFile {
  import opened Wrappers

  type Bytes = seq<nat>

  /** The calls to come: what each creator would publish, and how contents are normalised and accepted. */
  datatype Plan = Plan(proposal: nat -> Bytes, accept: Bytes -> Option<Bytes>)

  datatype Stage =
    | Ready                      // about to look whether the path exists
    | Making                     // about to make the temporary file
    | Writing                    // the temporary file is there, perhaps partly written
    | Linking                    // it is written and synced
    | Cleaning(linked: bool)     // about to unlink it; then load, or raise
    | Loading
    | Returned(key: Bytes)
    | Raised
    | Dead

  datatype Creator = Creator(stage: Stage, temp: Option<nat>)

  datatype Files = Files(path: Option<nat>, content: map<nat, Bytes>, creators: seq<Creator>, next: nat)

  datatype Operation =
    | Look
    | MakeTemp(ok: bool)
    | Write(count: nat)          // some more bytes reach the temporary file
    | Sync
    | WriteFails
    | Link(ok: bool)             // when it is ok, an existing path is left as it is
    | Unlink
    | Load(ok: bool)
    | Die

  predicate Finished(c: Creator) {
    c.stage.Returned? || c.stage.Raised? || c.stage.Dead?
  }

  predicate Enabled(p: Plan, s: Files, i: nat, o: Operation) {
    && i < |s.creators|
    && var c := s.creators[i];
       match o
       case Look => c.stage.Ready?
       case MakeTemp(_) => c.stage.Making?
       case Write(count) =>
         && c.stage.Writing? && c.temp.Some? && c.temp.value in s.content
         && 0 < count <= |p.proposal(i)| - |s.content[c.temp.value]|
       case Sync => c.stage.Writing? && c.temp.Some? && c.temp.value in s.content && s.content[c.temp.value] == p.proposal(i)
       case WriteFails => c.stage.Writing?
       case Link(_) => c.stage.Linking? && c.temp.Some?
       case Unlink => c.stage.Cleaning?
       case Load(_) => c.stage.Loading?
       case Die => !Finished(c)
  }

  function Apply(p: Plan, s: Files, i: nat, o: Operation): Files
    requires Enabled(p, s, i, o)
  {
    var c := s.creators[i];
    match o
    case Look => s.(creators := s.creators[i := c.(stage := if s.path.Some? then Loading else Making)])
    case MakeTemp(ok) =>
      if !ok then s.(creators := s.creators[i := c.(stage := Raised)])
      else s.(content := s.content[s.next := []], next := s.next + 1,
              creators := s.creators[i := Creator(Writing, Some(s.next))])
    case Write(count) =>
      s.(content := s.content[c.temp.value := p.proposal(i)[..|s.content[c.temp.value]| + count]])
    case Sync => s.(creators := s.creators[i := c.(stage := Linking)])
    case WriteFails => s.(creators := s.creators[i := c.(stage := Cleaning(false))])
    case Link(ok) =>
      s.(path := if ok && s.path.None? then c.temp else s.path,
         creators := s.creators[i := c.(stage := Cleaning(ok))])
    case Unlink => s.(creators := s.creators[i := Creator(if c.stage.linked then Loading else Raised, None)])
    case Load(ok) => s.(creators := s.creators[i := c.(stage := LoadResult(p, s, ok))])
    case Die => s.(creators := s.creators[i := c.(stage := Dead)])
  }

  /** `load_private_bytes`: the file at the path, normalised and long enough. */
  function LoadResult(p: Plan, s: Files, ok: bool): Stage {
    if !ok || s.path.None? || s.path.value !in s.content then Raised
    else match p.accept(s.content[s.path.value])
      case Some(key) => Returned(key)
      case None => Raised
  }

  // ---------------------------------------------------------------- the invariant

  predicate HasTemp(c: Creator) {
    c.stage.Writing? || c.stage.Linking? || c.stage.Cleaning?
  }

  predicate CreatorInv(p: Plan, s: Files, i: nat)
    requires i < |s.creators|
  {
    var c := s.creators[i];
    && (HasTemp(c) ==> c.temp.Some?)
    && (c.temp.Some? ==> HasTemp(c) || c.stage.Dead?)
    && (c.temp.Some? ==> c.temp.value < s.next && c.temp.value in s.content)
    && (c.stage.Writing? ==> s.content[c.temp.value] <= p.proposal(i) && s.path != c.temp)
    && (c.stage.Linking? ==> s.content[c.temp.value] == p.proposal(i) && s.path != c.temp)
    && (c.stage.Loading? || c.stage.Returned? || c.stage == Cleaning(true) ==> s.path.Some?)
    && (c.stage.Returned? && s.path.Some? && s.path.value in s.content ==>
          p.accept(s.content[s.path.value]) == Some(c.stage.key))
  }

  /** The path, once there, is a whole proposal of some creator, or the file that was there at first. */
  predicate Whole(p: Plan, s: Files, first: Option<Bytes>) {
    s.path.Some? ==>
      && s.path.value < s.next && s.path.value in s.content
      && (first == Some(s.content[s.path.value])
          || (first.None? && exists i :: 0 <= i < |s.creators| && s.content[s.path.value] == p.proposal(i)))
  }

  predicate TempsDistinct(s: Files) {
    forall i, j | 0 <= i < j < |s.creators| && s.creators[i].temp.Some? :: s.creators[i].temp != s.creators[j].temp
  }

  ghost predicate Inv(p: Plan, s: Files, first: Option<Bytes>) {
    && (forall n | n in s.content :: n < s.next)
    && (first.Some? ==> s.path.Some?)
    && Whole(p, s, first)
    && TempsDistinct(s)
    && forall i | 0 <= i < |s.creators| :: CreatorInv(p, s, i)
  }

  /** No step changes what the path holds once it holds something. */
  lemma StepKeepsKey(p: Plan, s: Files, i: nat, o: Operation, first: Option<Bytes>)
    requires Inv(p, s, first) && Enabled(p, s, i, o) && s.path.Some?
    ensures
      var t := Apply(p, s, i, o);
      t.path == s.path && s.path.value in t.content && t.content[s.path.value] == s.content[s.path.value]
  {
    assert CreatorInv(p, s, i);
  }

  lemma StepKeepsWhole(p: Plan, s: Files, i: nat, o: Operation, first: Option<Bytes>)
    requires Inv(p, s, first) && Enabled(p, s, i, o)
    ensures Whole(p, Apply(p, s, i, o), first)
  {
    var t := Apply(p, s, i, o);
    assert CreatorInv(p, s, i);
    hide TempsDistinct;
    if s.path.Some? {
      StepKeepsKey(p, s, i, o, first);
      if first != Some(s.content[s.path.value]) {
        var k :| 0 <= k < |s.creators| && s.content[s.path.value] == p.proposal(k);
        assert t.content[t.path.value] == p.proposal(k);
      }
    } else if o == Link(true) {
      assert t.content[t.path.value] == p.proposal(i);
    }
  }

  lemma StepKeepsCreators(p: Plan, s: Files, i: nat, o: Operation, first: Option<Bytes>, j: nat)
    requires Inv(p, s, first) && Enabled(p, s, i, o) && j < |s.creators|
    ensures CreatorInv(p, Apply(p, s, i, o), j)
  {
    assert CreatorInv(p, s, i) && CreatorInv(p, s, j);
    if s.path.Some? {
      StepKeepsKey(p, s, i, o, first);
    }
  }

  lemma StepKeepsInv(p: Plan, s: Files, i: nat, o: Operation, first: Option<Bytes>)
    requires Inv(p, s, first) && Enabled(p, s, i, o)
    ensures Inv(p, Apply(p, s, i, o), first)
  {
    var t := Apply(p, s, i, o);
    StepKeepsWhole(p, s, i, o, first);
    forall j | 0 <= j < |t.creators|
      ensures CreatorInv(p, t, j)
    {
      StepKeepsCreators(p, s, i, o, first, j);
    }
    StepKeepsTemps(p, s, i, o, first);
    assert CreatorInv(p, s, i);
  }

  lemma StepKeepsTemps(p: Plan, s: Files, i: nat, o: Operation, first: Option<Bytes>)
    requires Inv(p, s, first) && Enabled(p, s, i, o)
    ensures TempsDistinct(Apply(p, s, i, o))
  {
    var t := Apply(p, s, i, o);
    forall a, b | 0 <= a < b < |t.creators| && t.creators[a].temp.Some?
      ensures t.creators[a].temp != t.creators[b].temp
    {
      assert CreatorInv(p, s, a) && CreatorInv(p, s, b);
      assert s.creators[a].temp.Some? ==> s.creators[a].temp != s.creators[b].temp;
    }
  }

  // ---------------------------------------------------------------- every interleaving

  type Schedule = seq<(nat, Operation)>

  predicate Possible(p: Plan, s: Files, es: Schedule)
    decreases |es|
  {
    es == [] || (Enabled(p, s, es[0].0, es[0].1) && Possible(p, Apply(p, s, es[0].0, es[0].1), es[1..]))
  }

  function Run(p: Plan, s: Files, es: Schedule): Files
    requires Possible(p, s, es)
    decreases |es|
  {
    if es == [] then s else Run(p, Apply(p, s, es[0].0, es[0].1), es[1..])
  }

  /** Any number of creators about to start, with or without a file already there. */
  predicate Initial(s: Files, first: Option<Bytes>) {
    && (forall i | 0 <= i < |s.creators| :: s.creators[i] == Creator(Ready, None))
    && (forall n | n in s.content :: n < s.next)
    && (if s.path.Some? then s.path.value in s.content && first == Some(s.content[s.path.value]) else first.None?)
  }

  lemma {:induction false} RunKeepsInv(p: Plan, s: Files, es: Schedule, first: Option<Bytes>)
    requires Inv(p, s, first) && Possible(p, s, es)
    ensures Inv(p, Run(p, s, es), first) && |Run(p, s, es).creators| == |s.creators|
    ensures s.path.Some? ==>
      var t := Run(p, s, es);
      t.path == s.path && s.path.value in t.content && t.content[s.path.value] == s.content[s.path.value]
    decreases |es|
  {
    if es != [] {
      var (i, o) := es[0];
      StepKeepsInv(p, s, i, o, first);
      if s.path.Some? {
        StepKeepsKey(p, s, i, o, first);
      }
      var t := Apply(p, s, i, o);
      assert |t.creators| == |s.creators|;
      hide Inv, Apply, Enabled;
      RunKeepsInv(p, t, es[1..], first);
    }
  }

  /**
   At any moment of any interleaving: the path is absent or holds one whole proposal (or the file that was
   there at first), and every creator that has returned returned the key of exactly that content.
   */
  lemma CreatorsAgree(p: Plan, s: Files, es: Schedule, first: Option<Bytes>)
    requires Initial(s, first) && Possible(p, s, es)
    ensures
      var t := Run(p, s, es);
      && (first.Some? ==> t.path.Some?)
      && (t.path.Some? ==>
            && t.path.value in t.content
            && var key := t.content[t.path.value];
               && (first == Some(key) || (first.None? && exists i :: 0 <= i < |s.creators| && key == p.proposal(i)))
               && (forall i | 0 <= i < |t.creators| && t.creators[i].stage.Returned? ::
                     p.accept(key) == Some(t.creators[i].stage.key)))
      && (t.path.None? ==> forall i | 0 <= i < |t.creators| :: !t.creators[i].stage.Returned?)
  {
    RunKeepsInv(p, s, es, first);
    var t := Run(p, s, es);
    forall i | 0 <= i < |t.creators| && t.creators[i].stage.Returned?
      ensures t.path.Some? && p.accept(t.content[t.path.value]) == Some(t.creators[i].stage.key)
    {
      assert CreatorInv(p, t, i);
    }
  }

  /** Once published, the key never changes: what one creator read, every later moment still holds. */
  lemma KeyIsFinal(p: Plan, s: Files, es: Schedule, more: Schedule, first: Option<Bytes>)
    requires Initial(s, first) && Possible(p, s, es) && Possible(p, Run(p, s, es), more)
    ensures
      var t := Run(p, s, es);
      var u := Run(p, t, more);
      t.path.Some? ==>
        && t.path == u.path && t.path.value in t.content && t.path.value in u.content
        && t.content[t.path.value] == u.content[t.path.value]
  {
    RunKeepsInv(p, s, es, first);
    RunKeepsInv(p, Run(p, s, es), more, first);
  }

  /** When all creators have finished, and none died on the way, no temporary file is left. */
  lemma NoTempLeft(p: Plan, s: Files, es: Schedule, first: Option<Bytes>)
    requires Initial(s, first) && Possible(p, s, es)
    ensures
      var t := Run(p, s, es);
      forall i | 0 <= i < |t.creators| && (t.creators[i].stage.Returned? || t.creators[i].stage.Raised?) ::
        t.creators[i].temp.None?
  {
    RunKeepsInv(p, s, es, first);
    var t := Run(p, s, es);
    forall i | 0 <= i < |t.creators| && (t.creators[i].stage.Returned? || t.creators[i].stage.Raised?)
      ensures t.creators[i].temp.None?
    {
      assert CreatorInv(p, t, i);
    }
  }

  /** What is left to do for a creator: each own step lowers it, and no other creator's step touches it. */
  function Left(p: Plan, s: Files, i: nat): nat
    requires i < |s.creators|
  {
    var c := s.creators[i];
    match c.stage
    case Ready => |p.proposal(i)| + 7
    case Making => |p.proposal(i)| + 6
    case Writing =>
      if c.temp.Some? && c.temp.value in s.content && |s.content[c.temp.value]| <= |p.proposal(i)|
      then |p.proposal(i)| - |s.content[c.temp.value]| + 5 else 5
    case Linking => 4
    case Cleaning(_) => 3
    case Loading => 2
    case Returned(_) => 0
    case Raised => 0
    case Dead => 0
  }

  lemma OwnStepsAreFew(p: Plan, s: Files, i: nat, o: Operation, first: Option<Bytes>, j: nat)
    requires Inv(p, s, first) && Enabled(p, s, i, o) && j < |s.creators|
    ensures if i == j then Left(p, Apply(p, s, i, o), j) < Left(p, s, j) else Left(p, Apply(p, s, i, o), j) == Left(p, s, j)
  {
    assert CreatorInv(p, s, i) && CreatorInv(p, s, j);
  }

  function OwnSteps(es: Schedule, i: nat): nat {
    if es == [] then 0 else (if es[0].0 == i then 1 else 0) + OwnSteps(es[1..], i)
  }

  /** Whatever the others do, no creator takes more steps than its proposal has bytes, and seven. */
  lemma {:induction false} CreatorsFinish(p: Plan, s: Files, es: Schedule, first: Option<Bytes>, i: nat)
    requires Inv(p, s, first) && Possible(p, s, es) && i < |s.creators|
    ensures OwnSteps(es, i) <= Left(p, s, i) <= |p.proposal(i)| + 7
    decreases |es|
  {
    if es != [] {
      var (j, o) := es[0];
      StepKeepsInv(p, s, j, o, first);
      OwnStepsAreFew(p, s, j, o, first, i);
      var t := Apply(p, s, j, o);
      assert |t.creators| == |s.creators|;
      CreatorInvBounds(p, s, i, first);
      hide Inv, Apply, Enabled, Left;
      CreatorsFinish(p, t, es[1..], first, i);
    } else {
      CreatorInvBounds(p, s, i, first);
    }
  }

  lemma CreatorInvBounds(p: Plan, s: Files, i: nat, first: Option<Bytes>)
    requires Inv(p, s, first) && i < |s.creators|
    ensures Left(p, s, i) <= |p.proposal(i)| + 7
  {
    assert CreatorInv(p, s, i);
  }

  /** A creator that gets as far as loading finds a file: it fails only on a read error or an unacceptable key. */
  lemma LoadFindsKey(p: Plan, s: Files, es: Schedule, first: Option<Bytes>, i: nat)
    requires Initial(s, first) && Possible(p, s, es) && i < |s.creators|
    ensures
      var t := Run(p, s, es);
      |t.creators| == |s.creators| && (t.creators[i].stage.Loading? ==>
        && t.path.Some? && t.path.value in t.content
        && (LoadResult(p, t, true).Raised? <==> p.accept(t.content[t.path.value]).None?))
  {
    RunKeepsInv(p, s, es, first);
    assert CreatorInv(p, Run(p, s, es), i);
  }

  // ---------------------------------------------------------------- one creator among others

  /** What a creator meets: which of its operations fail, how its writes are cut, and what others do in between. */
  datatype Surroundings = Surroundings(
    made: bool, written: nat -> bool, chunk: nat -> nat, linked: bool, loaded: bool, others: nat -> Schedule)

  class Directory {
    var files: Files
    const plan: Plan
    ghost const start: Files
    ghost const first: Option<Bytes>
    ghost var schedule: Schedule

    ghost predicate Valid()
      reads this
    {
      && Initial(start, first) && Possible(plan, start, schedule)
      && files == Run(plan, start, schedule) && Inv(plan, files, first)
    }

    constructor (plan: Plan, files: Files, ghost first: Option<Bytes>)
      requires Initial(files, first)
      ensures Valid() && this.files == start == files && this.plan == plan && this.first == first && schedule == []
    {
      this.files := files;
      this.plan := plan;
      start := files;
      this.first := first;
      schedule := [];
      new;
      RunKeepsInv(plan, files, [], first);
    }

    method Perform(i: nat, o: Operation)
      requires Valid() && Enabled(plan, files, i, o)
      modifies this
      ensures Valid() && files == old(Apply(plan, files, i, o)) && |files.creators| == |old(files).creators|
      ensures schedule == old(schedule) + [(i, o)]
      ensures i < |files.creators| && (forall j | 0 <= j < |files.creators| && j != i :: files.creators[j] == old(files).creators[j])
      ensures Left(plan, files, i) < old(Left(plan, files, i))
      ensures forall j | 0 <= j < |files.creators| && j != i :: Left(plan, files, j) == old(Left(plan, files, j))
    {
      ghost var before := files;
      StepKeepsInv(plan, files, i, o, first);
      forall j | 0 <= j < |files.creators|
        ensures if i == j then Left(plan, Apply(plan, files, i, o), j) < Left(plan, files, j)
                else Left(plan, Apply(plan, files, i, o), j) == Left(plan, files, j)
      {
        OwnStepsAreFew(plan, files, i, o, first, j);
      }
      RunExtends(plan, start, schedule, i, o);
      files := Apply(plan, files, i, o);
      schedule := schedule + [(i, o)];
    }
  
    /** Steps of the other creators, as far as they are possible. */
    method Others(i: nat, es: Schedule)
      requires Valid() && i < |files.creators|
      modifies this
      ensures Valid() && |files.creators| == |old(files.creators)|
      ensures files.creators[i] == old(files.creators[i]) && Left(plan, files, i) == old(Left(plan, files, i))
    {
      for k := 0 to |es|
        invariant Valid() && |files.creators| == |old(files.creators)|
        invariant files.creators[i] == old(files.creators[i]) && Left(plan, files, i) == old(Left(plan, files, i))
      {
        var (j, o) := es[k];
        if j != i && Enabled(plan, files, j, o) {
          Perform(j, o);
        }
      }
    }

    ghost predicate AtStage(i: nat, stage: Stage)
      reads this
    {
      Valid() && i < |files.creators| && files.creators[i].stage == stage && CreatorInv(plan, files, i)
    }

    /** `write_private_temp`: the whole proposal in a synced temporary file, or none left behind. */
    method WritePrivateTemp(i: nat, around: Surroundings) returns (ok: bool)
      requires AtStage(i, Making)
      modifies this
      ensures AtStage(i, if ok then Linking else Raised)
      ensures around.made && (forall n :: around.written(n)) ==> ok
    {
      Perform(i, MakeTemp(around.made));
      if !around.made {
        return false;
      }
      var n := 0;
      while |files.content[files.creators[i].temp.value]| < |plan.proposal(i)|
        invariant AtStage(i, Writing)
        decreases Left(plan, files, i)
      {
        Others(i, around.others(n));
        assert CreatorInv(plan, files, i);
        if !around.written(n) {
          Perform(i, WriteFails);
          Perform(i, Unlink);
          return false;
        }
        var left := |plan.proposal(i)| - |files.content[files.creators[i].temp.value]|;
        Perform(i, Write(Max(1, Min(around.chunk(n), left))));
        n := n + 1;
      }
      Perform(i, Sync);
      ok := true;
    }

    /** Link the temporary file to the path, unless there is one, and unlink it in any case. */
    method Publish(i: nat, around: Surroundings)
      requires AtStage(i, Linking)
      modifies this
      ensures AtStage(i, if around.linked then Loading else Raised)
    {
      hide Possible, Run, Left, Initial;
      Others(i, around.others(1));
      assert CreatorInv(plan, files, i);
      Perform(i, Link(around.linked));
      Others(i, around.others(2));
      Perform(i, Unlink);
      assert CreatorInv(plan, files, i);
    }

    /** `load_private_bytes`: the key is made of the content at the path, which is there. */
    method LoadPrivateBytes(i: nat, around: Surroundings) returns (key: Option<Bytes>)
      requires AtStage(i, Loading)
      modifies this
      ensures Valid() && i < |files.creators| && files.path.Some? && files.path.value in files.content
      ensures AtStage(i, if key.Some? then Returned(key.value) else Raised)
      ensures key == if around.loaded then plan.accept(files.content[files.path.value]) else None
    {
      hide Possible, Run, Left, Initial;
      Others(i, around.others(3));
      assert CreatorInv(plan, files, i);
      Perform(i, Load(around.loaded));
      assert CreatorInv(plan, files, i);
      var stage := files.creators[i].stage;
      key := if stage.Returned? then Some(stage.key) else None;
    }

    /** `load_or_create_private_bytes`, with other creators acting between its operations. */
    method LoadOrCreatePrivateBytes(i: nat, around: Surroundings) returns (key: Option<Bytes>)
      requires AtStage(i, Ready)
      modifies this
      ensures i < |files.creators| && AtStage(i, if key.Some? then Returned(key.value) else Raised)
      ensures files.creators[i].temp.None?
      ensures key.Some? ==>
        files.path.Some? && files.path.value in files.content && key == plan.accept(files.content[files.path.value])
      ensures around.loaded && (old(files.path.Some?) || (around.made && around.linked && forall n :: around.written(n))) ==>
        files.path.Some? && files.path.value in files.content && key == plan.accept(files.content[files.path.value])
    {
      hide Possible, Run, Left, Initial;
      var present := files.path.Some?;
      Perform(i, Look);
      assert CreatorInv(plan, files, i);
      if !present {
        Others(i, around.others(0));
        assert CreatorInv(plan, files, i);
        var ok := WritePrivateTemp(i, around);
        if !ok {
          return None;
        }
        Publish(i, around);
        if !around.linked {
          return None;
        }
      }
      key := LoadPrivateBytes(i, around);
    }
  }

  lemma {:induction false} RunExtends(p: Plan, s: Files, es: Schedule, i: nat, o: Operation)
    requires Possible(p, s, es) && Enabled(p, Run(p, s, es), i, o)
    ensures Possible(p, s, es + [(i, o)]) && Run(p, s, es + [(i, o)]) == Apply(p, Run(p, s, es), i, o)
    decreases |es|
  {
    if es == [] {
      assert es + [(i, o)] == [(i, o)];
      assert [(i, o)][1..] == [];
    } else {
      assert (es + [(i, o)])[1..] == es[1..] + [(i, o)];
      RunExtends(p, Apply(p, s, es[0].0, es[0].1), es[1..], i, o);
    }
  }
}
