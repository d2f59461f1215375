/** The two context managers that swap loader functions of library modules while they hold a shared
    re-entrant lock, as a step system over any number of threads. A thread takes one small step at a
    time: it enters, captures the original, patches one module, runs its body (which may open further
    contexts), leaves the body by returning or raising, restores one module, releases. */
module LoaderPatching {
  import opened Sequences

  type Thread = nat
  type Backend = string

  /** Module attributes that are rebound. */
  datatype Slot = VideoUtils | VideoProcessing | QwenProcessing | AudioProcessing

  /** What an attribute is bound to: the library's function, a closure that forces a backend and
      calls the function captured when it was made, or the loader that reads a video's audio. */
  datatype Loader = Library(slot: Slot) | Forced(backend: Backend, inner: Loader) | VideoAudio

  type Bindings = map<Slot, Loader>

  /** One `with` statement. The third module of the video case may fail to import. */
  datatype Use = Video(backend: Option<Backend>, qwen: bool) | Audio(enabled: bool)

  datatype Phase = Entered | Patching(todo: seq<Slot>) | Running | Restoring

  datatype Frame = Frame(use: Use, phase: Phase, patch: Option<Loader>, saved: Bindings)

  datatype State = State(owner: Option<Thread>, depth: nat, bindings: Bindings, stacks: map<Thread, seq<Frame>>)

  datatype Event = Enter(use: Use) | Fail | Capture | Skip | Patch | Begin | Finish | Restore(slot: Slot) | Release

  function Targets(u: Use): seq<Slot> {
    match u
    case Video(None, _) => []
    case Video(_, qwen) => [VideoUtils, VideoProcessing] + if qwen then [QwenProcessing] else []
    case Audio(enabled) => if enabled then [AudioProcessing] else []
  }

  function NewLoader(u: Use, b: Bindings): Loader
    requires u.Video? ==> u.backend.Some? && VideoUtils in b
  {
    match u
    case Video(backend, _) => Forced(backend.value, b[VideoUtils])
    case Audio(_) => VideoAudio
  }

  // ----- steps

  function Top(fs: seq<Frame>): Frame
    requires fs != []
  {
    fs[|fs| - 1]
  }

  predicate Enabled(s: State, t: Thread, e: Event) {
    && t in s.stacks
    && var fs := s.stacks[t];
       match e
       case Enter(_) => (s.owner == None || s.owner == Some(t)) && (fs == [] || Top(fs).phase.Running?)
       case Fail => fs != [] && Top(fs).phase.Entered?
       case Capture =>
         fs != [] && Top(fs).phase.Entered? && Targets(Top(fs).use) != [] && Targets(Top(fs).use)[0] in s.bindings
       case Skip => fs != [] && Top(fs).phase.Entered? && Targets(Top(fs).use) == []
       case Patch => fs != [] && Top(fs).phase.Patching? && Top(fs).phase.todo != [] && Top(fs).patch.Some?
       case Begin => fs != [] && Top(fs).phase == Patching([])
       case Finish => fs != [] && Top(fs).phase.Running?
       case Restore(slot) => fs != [] && Top(fs).phase.Restoring? && slot in Top(fs).saved
       case Release => fs != [] && Top(fs).phase.Restoring? && Top(fs).saved == map[] && s.depth > 0
  }

  /** Replace the top frame of thread `t`. */
  function WithTop(s: State, t: Thread, f: Frame): State
    requires t in s.stacks && s.stacks[t] != []
  {
    s.(stacks := s.stacks[t := s.stacks[t][..|s.stacks[t]| - 1] + [f]])
  }

  function Next(s: State, t: Thread, e: Event): State
    requires Enabled(s, t, e)
  {
    var fs := s.stacks[t];
    match e
    case Enter(u) =>
      s.(owner := Some(t), depth := s.depth + 1, stacks := s.stacks[t := fs + [Frame(u, Entered, None, map[])]])
    case Fail => WithTop(s, t, Top(fs).(phase := Restoring))
    case Capture =>
      var f := Top(fs);
      WithTop(s, t, f.(phase := Patching(Targets(f.use)), patch := Some(NewLoader(f.use, s.bindings))))
    case Skip => WithTop(s, t, Top(fs).(phase := Running))
    case Patch =>
      var f := Top(fs);
      var slot := f.phase.todo[0];
      var after := f.(phase := Patching(f.phase.todo[1..]));
      if slot in s.bindings then
        WithTop(s.(bindings := s.bindings[slot := f.patch.value]), t,
                after.(saved := f.saved[slot := s.bindings[slot]]))
      else
        WithTop(s, t, after)
    case Begin => WithTop(s, t, Top(fs).(phase := Running))
    case Finish => WithTop(s, t, Top(fs).(phase := Restoring))
    case Restore(slot) =>
      var f := Top(fs);
      WithTop(s.(bindings := s.bindings[slot := f.saved[slot]]), t, f.(saved := f.saved - {slot}))
    case Release =>
      s.(owner := if s.depth == 1 then None else s.owner, depth := s.depth - 1, stacks := s.stacks[t := fs[..|fs| - 1]])
  }

  type Trace = seq<(Thread, Event)>

  ghost predicate Possible(s: State, tr: Trace)
    decreases |tr|
  {
    tr == [] || (Enabled(s, tr[0].0, tr[0].1) && Possible(Next(s, tr[0].0, tr[0].1), tr[1..]))
  }

  ghost function After(s: State, tr: Trace): State
    requires Possible(s, tr)
    decreases |tr|
  {
    if tr == [] then s else After(Next(s, tr[0].0, tr[0].1), tr[1..])
  }

  /** Nobody inside a context and every attribute, where it exists, bound to its own library function. */
  predicate Initial(s: State) {
    && s.owner == None && s.depth == 0
    && (forall t :: t in s.stacks ==> s.stacks[t] == [])
    && (forall slot :: slot in s.bindings ==> s.bindings[slot] == Library(slot))
  }

  // ----- invariant

  /** Bindings with one context's loader on what it has saved. */
  ghost function Overlaid(below: Bindings, f: Frame): Bindings {
    map slot | slot in below :: if slot in f.saved && f.patch.Some? then f.patch.value else below[slot]
  }

  /** Bindings that a stack of open contexts puts in front of the originals `o`. */
  ghost function Layered(o: Bindings, fs: seq<Frame>): Bindings {
    if fs == [] then o
    else
      var below := Layered(o, fs[..|fs| - 1]);
      Overlaid(below, Top(fs))
  }

  /** A context saved what the contexts around it had put there, and made its loader from that. */
  ghost predicate FrameOk(below: Bindings, f: Frame) {
    && (forall slot :: slot in f.saved ==> slot in below && f.saved[slot] == below[slot] && slot in Targets(f.use))
    && (f.phase.Entered? ==> f.saved == map[] && f.patch == None)
    && (f.phase.Patching? ==> f.patch.Some? && ToDoOk(below, f, f.phase.todo))
    && (f.phase.Running? ==> forall slot :: slot in Targets(f.use) && slot in below ==> slot in f.saved)
    && (f.saved != map[] ==> f.patch.Some?)
    && (f.patch.Some? ==> f.use.Video? ==> f.use.backend.Some? && VideoUtils in below)
    && (f.patch.Some? ==> f.patch.value == NewLoader(f.use, below))
  }

  /** Modules still to patch are the ones not saved yet. */
  ghost predicate ToDoOk(below: Bindings, f: Frame, todo: seq<Slot>) {
    && (forall slot :: slot in todo ==> slot !in f.saved && slot in Targets(f.use))
    && (forall i, j :: 0 <= i < j < |todo| ==> todo[i] != todo[j])
    && (forall slot :: slot in Targets(f.use) && slot in below ==> slot in f.saved || slot in todo)
  }

  ghost predicate StackOk(o: Bindings, fs: seq<Frame>) {
    fs != [] ==>
      && StackOk(o, fs[..|fs| - 1])
      && FrameOk(Layered(o, fs[..|fs| - 1]), Top(fs))
      && (|fs| > 1 ==> fs[|fs| - 2].phase.Running?)
  }

  /** Only the owner of the lock is inside contexts, as many as the lock counts, and the bindings are
      exactly what those contexts layered over the originals. */
  ghost predicate Inv(o: Bindings, s: State) {
    && (s.owner == None ==> s.depth == 0 && s.bindings == o)
    && (forall t :: t in s.stacks && s.owner != Some(t) ==> s.stacks[t] == [])
    && (s.owner.Some? ==>
          && s.owner.value in s.stacks
          && var fs := s.stacks[s.owner.value];
             fs != [] && s.depth == |fs| && StackOk(o, fs) && s.bindings == Layered(o, fs))
  }

  lemma {:induction false} LayeredKeys(o: Bindings, fs: seq<Frame>)
    ensures Layered(o, fs).Keys == o.Keys
  {
    if fs != [] {
      LayeredKeys(o, fs[..|fs| - 1]);
    }
  }

  /** Everything the invariant says, from what a step does to the top of the stack. */
  lemma {:induction false} InvWithTop(o: Bindings, s: State, t: Thread, f: Frame, b: Bindings)
    requires Inv(o, s) && t in s.stacks && s.stacks[t] != []
    requires var below := Layered(o, s.stacks[t][..|s.stacks[t]| - 1]);
      && FrameOk(below, f)
      && b == Overlaid(below, f)
    ensures Inv(o, WithTop(s.(bindings := b), t, f))
  {
    hide FrameOk;
    var fs := s.stacks[t];
    var after := fs[..|fs| - 1] + [f];
    assert after[..|after| - 1] == fs[..|fs| - 1] && Top(after) == f;
  }

  lemma {:induction false} InvStep(o: Bindings, s: State, t: Thread, e: Event)
    requires Inv(o, s) && Enabled(s, t, e)
    ensures Inv(o, Next(s, t, e))
  {
    hide Inv, Enabled, Next;
    match e {
      case Enter(u) => EnterKeeps(o, s, t, u);
      case Release => ReleaseKeeps(o, s, t);
      case Restore(slot) => RestoreKeeps(o, s, t, slot);
      case Patch => PatchKeeps(o, s, t);
      case Capture => CaptureKeeps(o, s, t);
      case _ => PhaseKeeps(o, s, t, e);
    }
  }

  lemma {:induction false} PhaseKeeps(o: Bindings, s: State, t: Thread, e: Event)
    requires Inv(o, s) && Enabled(s, t, e) && e in {Fail, Skip, Begin, Finish}
    ensures Inv(o, Next(s, t, e))
  {
    hide NewLoader, Targets;
    var fs := s.stacks[t];
    InvWithTop(o, s, t, Top(Next(s, t, e).stacks[t]), s.bindings);
  }

  lemma {:induction false} EnterKeeps(o: Bindings, s: State, t: Thread, u: Use)
    requires Inv(o, s) && Enabled(s, t, Enter(u))
    ensures Inv(o, Next(s, t, Enter(u)))
  {
    var fs := s.stacks[t];
    var f := Frame(u, Entered, None, map[]);
    var after := fs + [f];
    assert after[..|after| - 1] == fs;
    assert Layered(o, after) == Layered(o, fs) == s.bindings;
    assert StackOk(o, fs);
  }

  lemma {:induction false} ReleaseKeeps(o: Bindings, s: State, t: Thread)
    requires Inv(o, s) && Enabled(s, t, Release)
    ensures Inv(o, Next(s, t, Release))
  {
    var fs := s.stacks[t];
    assert Layered(o, fs) == Layered(o, fs[..|fs| - 1]);
  }

  lemma {:induction false} CaptureKeeps(o: Bindings, s: State, t: Thread)
    requires Inv(o, s) && Enabled(s, t, Capture)
    ensures Inv(o, Next(s, t, Capture))
  {
    var fs := s.stacks[t];
    var f := Top(fs);
    var below := Layered(o, fs[..|fs| - 1]);
    assert s.bindings == below;
    var after := f.(phase := Patching(Targets(f.use)), patch := Some(NewLoader(f.use, s.bindings)));
    assert FrameOk(below, after);
    hide FrameOk, NewLoader, Targets;
    InvWithTop(o, s, t, after, s.bindings);
  }

  /** One more module saved and patched. */
  lemma {:induction false} PatchOne(below: Bindings, f: Frame, bindings: Bindings) returns (after: Frame, b: Bindings)
    requires FrameOk(below, f) && f.phase.Patching? && f.phase.todo != []
    requires bindings == Overlaid(below, f)
    ensures var slot := f.phase.todo[0];
      && after.(saved := f.saved) == f.(phase := Patching(f.phase.todo[1..]))
      && after.saved == (if slot in bindings then f.saved[slot := bindings[slot]] else f.saved)
      && b == if slot in bindings then bindings[slot := f.patch.value] else bindings
    ensures FrameOk(below, after)
    ensures b == Overlaid(below, after)
  {
    hide NewLoader, Targets, Overlaid;
    var slot, rest := f.phase.todo[0], f.phase.todo[1..];
    UnsavedBinding(below, f, slot);
    assert slot !in rest && forall x :: x in f.phase.todo <==> x == slot || x in rest;
    var saved := if slot in bindings then f.saved[slot := bindings[slot]] else f.saved;
    after := f.(phase := Patching(rest), saved := saved);
    b := if slot in bindings then bindings[slot := f.patch.value] else bindings;
    assert ToDoOk(below, after, rest);
    OverlaidOne(below, f, slot, after, b);
  }

  lemma {:induction false} UnsavedBinding(below: Bindings, f: Frame, slot: Slot)
    requires slot !in f.saved
    ensures slot in Overlaid(below, f) <==> slot in below
    ensures slot in below ==> Overlaid(below, f)[slot] == below[slot]
  {
  }

  /** Saving a module puts the loader on it as well. */
  lemma {:induction false} OverlaidOne(below: Bindings, f: Frame, slot: Slot, after: Frame, b: Bindings)
    requires f.patch.Some? && slot !in f.saved && after.patch == f.patch
    requires after.saved == (if slot in below then f.saved[slot := below[slot]] else f.saved)
    requires b == if slot in below then Overlaid(below, f)[slot := f.patch.value] else Overlaid(below, f)
    ensures b == Overlaid(below, after)
  {
    assert b.Keys == below.Keys;
  }

  lemma {:induction false} PatchKeeps(o: Bindings, s: State, t: Thread)
    requires Inv(o, s) && Enabled(s, t, Patch)
    ensures Inv(o, Next(s, t, Patch))
  {
    hide FrameOk, NewLoader, Targets;
    var fs := s.stacks[t];
    var below := Layered(o, fs[..|fs| - 1]);
    var after, b := PatchOne(below, Top(fs), s.bindings);
    InvWithTop(o, s, t, after, b);
  }

  lemma {:induction false} RestoreKeeps(o: Bindings, s: State, t: Thread, slot: Slot)
    requires Inv(o, s) && Enabled(s, t, Restore(slot))
    ensures Inv(o, Next(s, t, Restore(slot)))
  {
    hide NewLoader, Targets;
    var fs := s.stacks[t];
    var f := Top(fs);
    var below := Layered(o, fs[..|fs| - 1]);
    var after := f.(saved := f.saved - {slot});
    assert FrameOk(below, after);
    InvWithTop(o, s, t, after, s.bindings[slot := f.saved[slot]]);
  }

  lemma {:induction false} InvRun(o: Bindings, s: State, tr: Trace)
    requires Inv(o, s) && Possible(s, tr)
    ensures Inv(o, After(s, tr))
    decreases |tr|
  {
    hide Inv, Enabled, Next;
    if tr != [] {
      InvStep(o, s, tr[0].0, tr[0].1);
      InvRun(o, Next(s, tr[0].0, tr[0].1), tr[1..]);
    }
  }

  // ----- results

  /** In every interleaving of any number of threads, whenever the lock is free every patched
      attribute is bound to the original again and no thread is inside a context. */
  lemma {:induction false} FreeLockMeansOriginals(s: State, tr: Trace)
    requires Initial(s) && Possible(s, tr)
    ensures var r := After(s, tr);
      r.owner == None ==> r.bindings == s.bindings && forall t :: t in r.stacks ==> r.stacks[t] == []
  {
    InvRun(s.bindings, s, tr);
  }

  /** Contexts of different threads never overlap, and the lock counts the open ones. */
  lemma {:induction false} OneThreadInside(s: State, tr: Trace, t: Thread)
    requires Initial(s) && Possible(s, tr) && t in After(s, tr).stacks
    ensures var r := After(s, tr);
      && (r.stacks[t] != [] <==> r.owner == Some(t))
      && (r.owner == Some(t) ==> r.depth == |r.stacks[t]|)
  {
    InvRun(s.bindings, s, tr);
  }

  /** A body gets back the bindings it had: whatever nested contexts, raising or not, and whatever
      other threads did in between, equal open contexts see equal bindings. */
  lemma {:induction false} NestedUseUndone(s: State, before: Trace, between: Trace, t: Thread)
    requires Initial(s) && Possible(s, before) && Possible(After(s, before), between)
    requires var r, q := After(s, before), After(After(s, before), between);
      && t in r.stacks && t in q.stacks && r.stacks[t] == q.stacks[t] != []
    ensures After(After(s, before), between).bindings == After(s, before).bindings
  {
    hide StackOk, Layered, Next, Enabled;
    InvRun(s.bindings, s, before);
    InvRun(s.bindings, After(s, before), between);
  }

  /** What the body of a context finds, `entry` being the bindings it was entered with: a forced backend
      on the two video modules and, if it could be imported, the third, all three calling what the first
      one was bound to; the video's own audio on the audio module; everything else as it was. */
  ghost predicate Sees(entry: Bindings, u: Use, b: Bindings) {
    && b.Keys == entry.Keys
    && forall slot :: slot in b ==>
         b[slot] ==
         match u
         case Video(Some(backend), qwen) =>
           if slot.VideoUtils? || slot.VideoProcessing? || (slot.QwenProcessing? && qwen) then
             if VideoUtils in entry then Forced(backend, entry[VideoUtils]) else entry[slot]
           else entry[slot]
         case Video(None, _) => entry[slot]
         case Audio(enabled) => if slot.AudioProcessing? && enabled then VideoAudio else entry[slot]
  }

  /** Whatever other threads did before and whatever nested contexts came and went in the body. */
  lemma {:induction false} BodySees(s: State, before: Trace, between: Trace, t: Thread)
    requires Initial(s) && Possible(s, before) && Possible(After(s, before), between)
    requires var q, r := After(s, before), After(After(s, before), between);
      && t in q.stacks && t in r.stacks && (q.owner == None || q.owner == Some(t))
      && r.stacks[t] != [] && r.stacks[t][..|r.stacks[t]| - 1] == q.stacks[t] && Top(r.stacks[t]).phase.Running?
    ensures var q, r := After(s, before), After(After(s, before), between);
      Sees(q.bindings, Top(r.stacks[t]).use, r.bindings)
  {
    hide After, Possible;
    var q, r := After(s, before), After(After(s, before), between);
    InvRun(s.bindings, s, before);
    InvRun(s.bindings, q, between);
    assert q.bindings == Layered(s.bindings, q.stacks[t]);
    LayeredKeys(s.bindings, q.stacks[t]);
    RunningSees(q.bindings, Top(r.stacks[t]));
  }

  lemma {:induction false} RunningSees(below: Bindings, f: Frame)
    requires FrameOk(below, f) && f.phase.Running?
    ensures Sees(below, f.use, Overlaid(below, f))
  {
  }

  /** Whoever holds the lock can always take a step, so a context is left in the end unless its body
      never ends. */
  lemma {:induction false} OwnerCanStep(s: State, tr: Trace) returns (e: Event)
    requires Initial(s) && Possible(s, tr) && After(s, tr).owner.Some?
    ensures Enabled(After(s, tr), After(s, tr).owner.value, e) && !e.Enter?
  {
    var r := After(s, tr);
    InvRun(s.bindings, s, tr);
    var f := Top(r.stacks[r.owner.value]);
    match f.phase {
      case Entered => e := Fail;
      case Patching(todo) => e := if todo == [] then Begin else Patch;
      case Running => e := Finish;
      case Restoring =>
        if f.saved == map[] {
          e := Release;
        } else {
          var slot :| slot in f.saved;
          e := Restore(slot);
        }
    }
  }

  // ----- which backend a call ends up with

  /** Follow the captured functions: the library function reached and the backend it is given. */
  function Resolve(l: Loader, requested: Backend): (Loader, Backend) {
    if l.Forced? then Resolve(l.inner, l.backend) else (l, requested)
  }

  function Forcing(f: Frame): seq<Backend> {
    if f.use.Video? && f.patch.Some? && f.use.backend.Some? then [f.use.backend.value] else []
  }

  /** The open video contexts that force a backend, outermost first. */
  function Backends(fs: seq<Frame>): seq<Backend> {
    if fs == [] then []
    else Backends(fs[..|fs| - 1]) + Forcing(Top(fs))
  }

  /** With nested contexts the outermost backend wins: every call made through a patched module, in
      whichever open context it was patched, reaches the library function of the first module, and it
      gets the backend of the outermost context that forces one. */
  lemma {:induction false} OutermostBackendWins(s: State, tr: Trace, t: Thread, slot: Slot, requested: Backend)
    requires Initial(s) && Possible(s, tr)
    requires var r := After(s, tr);
      r.owner == Some(t) && t in r.stacks && slot in r.bindings && r.bindings[slot].Forced?
    ensures var r := After(s, tr);
      && Backends(r.stacks[t]) != []
      && Resolve(r.bindings[slot], requested) == (Library(VideoUtils), Backends(r.stacks[t])[0])
  {
    InvRun(s.bindings, s, tr);
    ResolveLayered(s.bindings, After(s, tr).stacks[t], slot, requested);
  }

  /** The innermost backend is used exactly when it is the outermost one's. */
  lemma {:induction false} InnermostIffSame(s: State, tr: Trace, t: Thread, slot: Slot, requested: Backend)
    requires Initial(s) && Possible(s, tr)
    requires var r := After(s, tr);
      r.owner == Some(t) && t in r.stacks && slot in r.bindings && r.bindings[slot].Forced?
    ensures var r := After(s, tr);
      var bs := Backends(r.stacks[t]);
      bs != [] && (Resolve(r.bindings[slot], requested).1 == bs[|bs| - 1] <==> bs[0] == bs[|bs| - 1])
  {
    hide After, Possible, Resolve, Backends;
    OutermostBackendWins(s, tr, t, slot, requested);
  }

  // ----- such runs exist

  lemma {:induction false} RunsJoin(s: State, a: Trace, b: Trace)
    requires Possible(s, a) && Possible(After(s, a), b)
    ensures Possible(s, a + b) && After(s, a + b) == After(After(s, a), b)
    decreases |a|
  {
    hide Enabled, Next;
    if a == [] {
      assert a + b == b;
    } else {
      assert (a + b)[1..] == a[1..] + b;
      RunsJoin(Next(s, a[0].0, a[0].1), a[1..], b);
    }
  }

  lemma {:induction false} OneStep(s: State, tr: Trace, t: Thread, e: Event)
    requires Possible(s, tr) && Enabled(After(s, tr), t, e)
    ensures Possible(s, tr + [(t, e)]) && After(s, tr + [(t, e)]) == Next(After(s, tr), t, e)
  {
    hide Enabled, Next;
    var r := After(s, tr);
    assert Possible(r, [(t, e)]) && After(r, [(t, e)]) == Next(r, t, e) by {
      assert [(t, e)][1..] == [];
    }
    RunsJoin(s, tr, [(t, e)]);
  }

  lemma {:induction false} EmptyRun(s: State)
    ensures Possible(s, []) && After(s, []) == s
  {
  }

  predicate MayOpen(s: State, t: Thread) {
    && t in s.stacks && (s.owner == None || s.owner == Some(t)) && VideoUtils in s.bindings
    && (s.stacks[t] == [] || Top(s.stacks[t]).phase.Running?)
  }

  /** Replacing the top of `fs + [f]`. */
  lemma {:induction false} TopReplaced(s: State, t: Thread, fs: seq<Frame>, f: Frame, f': Frame)
    requires t in s.stacks && s.stacks[t] == fs + [f]
    ensures Top(s.stacks[t]) == f && WithTop(s, t, f') == s.(stacks := s.stacks[t := fs + [f']])
  {
    assert (fs + [f])[..|fs|] == fs;
  }

  /** Entering and capturing. */
  lemma {:induction false} GetsPatching(s: State, t: Thread, b: Backend) returns (r: State)
    requires MayOpen(s, t)
    ensures var u := Video(Some(b), false);
      && Enabled(s, t, Enter(u)) && Enabled(Next(s, t, Enter(u)), t, Capture)
      && r == Next(Next(s, t, Enter(u)), t, Capture)
      && r.owner == Some(t) && r.bindings == s.bindings && t in r.stacks
      && r.stacks[t] == s.stacks[t]
           + [Frame(u, Patching([VideoUtils, VideoProcessing]), Some(Forced(b, s.bindings[VideoUtils])), map[])]
  {
    var u := Video(Some(b), false);
    var s1 := Next(s, t, Enter(u));
    assert Targets(u) == [VideoUtils, VideoProcessing];
    var patching := Frame(u, Patching(Targets(u)), Some(NewLoader(u, s.bindings)), map[]);
    TopReplaced(s1, t, s.stacks[t], Frame(u, Entered, None, map[]), patching);
    r := Next(s1, t, Capture);
  }

  /** Patching one module. */
  lemma {:induction false} GetsPatched(s: State, t: Thread, fs: seq<Frame>, f: Frame) returns (r: State, f': Frame)
    requires t in s.stacks && s.stacks[t] == fs + [f] && f.phase.Patching? && f.phase.todo != [] && f.patch.Some?
    ensures Enabled(s, t, Patch) && r == Next(s, t, Patch)
    ensures r.owner == s.owner && t in r.stacks && r.stacks[t] == fs + [f']
    ensures f'.use == f.use && f'.patch == f.patch && f'.phase == Patching(f.phase.todo[1..])
    ensures var slot := f.phase.todo[0];
      r.bindings == if slot in s.bindings then s.bindings[slot := f.patch.value] else s.bindings
  {
    r := Next(s, t, Patch);
    f' := Top(r.stacks[t]);
    assert Top(s.stacks[t]) == f && (fs + [f])[..|fs|] == fs;
  }

  /** Starting the body. */
  lemma {:induction false} GetsRunning(s: State, t: Thread, fs: seq<Frame>, f: Frame) returns (r: State)
    requires t in s.stacks && s.stacks[t] == fs + [f] && f.phase == Patching([])
    ensures Enabled(s, t, Begin) && r == Next(s, t, Begin)
    ensures r.owner == s.owner && r.bindings == s.bindings && t in r.stacks
    ensures r.stacks[t] == fs + [f.(phase := Running)]
  {
    TopReplaced(s, t, fs, f, f.(phase := Running));
    r := Next(s, t, Begin);
  }

  /** From any state in which thread `t` may open a context it can get into the body of one that
      forces `b`. */
  lemma {:induction false} OpenContext(s: State, t: Thread, b: Backend) returns (tr: Trace)
    requires MayOpen(s, t)
    ensures Possible(s, tr)
    ensures var r := After(s, tr);
      && MayOpen(r, t) && r.owner == Some(t) && r.bindings[VideoUtils] == Forced(b, s.bindings[VideoUtils])
      && r.stacks[t] != [] && r.stacks[t][..|r.stacks[t]| - 1] == s.stacks[t] && Forcing(Top(r.stacks[t])) == [b]
  {
    hide Possible, After, Enabled, Next;
    var u, fs := Video(Some(b), false), s.stacks[t];
    var s2 := GetsPatching(s, t, b);
    var s3, f3 := GetsPatched(s2, t, fs, s2.stacks[t][|fs|]);
    var s4, f4 := GetsPatched(s3, t, fs, f3);
    var s5 := GetsRunning(s4, t, fs, f4);
    EmptyRun(s);
    OneStep(s, [], t, Enter(u));
    var t1: Trace := [] + [(t, Enter(u))];
    OneStep(s, t1, t, Capture);
    var t2 := t1 + [(t, Capture)];
    OneStep(s, t2, t, Patch);
    var t3 := t2 + [(t, Patch)];
    OneStep(s, t3, t, Patch);
    var t4 := t3 + [(t, Patch)];
    OneStep(s, t4, t, Begin);
    tr := t4 + [(t, Begin)];
    assert After(s, tr) == s5;
  }

  /** Nesting any two backends is reachable, and the inner body's calls get the outer one. */
  lemma {:induction false} NestedBackends(s: State, t: Thread, outer: Backend, inner: Backend, requested: Backend)
    returns (tr: Trace)
    requires Initial(s) && t in s.stacks && VideoUtils in s.bindings
    ensures Possible(s, tr)
    ensures var r := After(s, tr);
      && r.owner == Some(t) && t in r.stacks && Backends(r.stacks[t]) == [outer, inner]
      && VideoUtils in r.bindings && r.bindings[VideoUtils].Forced?
      && Resolve(r.bindings[VideoUtils], requested) == (Library(VideoUtils), outer)
  {
    hide Enabled, Next, Possible, After;
    var a := OpenContext(s, t, outer);
    var mid := After(s, a);
    var b := OpenContext(mid, t, inner);
    RunsJoin(s, a, b);
    tr := a + b;
    assert s.stacks[t] == [] && Backends(mid.stacks[t]) == [outer];
    OutermostBackendWins(s, tr, t, VideoUtils, requested);
  }

  lemma {:induction false} ResolveLayered(o: Bindings, fs: seq<Frame>, slot: Slot, requested: Backend)
    requires StackOk(o, fs) && (forall x :: x in o ==> o[x] == Library(x))
    requires slot in Layered(o, fs) && Layered(o, fs)[slot].Forced?
    ensures Backends(fs) != [] && Resolve(Layered(o, fs)[slot], requested) == (Library(VideoUtils), Backends(fs)[0])
  {
    if fs != [] {
      var rest, f := fs[..|fs| - 1], Top(fs);
      var below := Layered(o, rest);
      if slot in f.saved {
        assert f.patch.value == Forced(f.use.backend.value, below[VideoUtils]);
        if below[VideoUtils].Forced? {
          ResolveLayered(o, rest, VideoUtils, f.use.backend.value);
        } else {
          NotForced(o, rest);
        }
      } else {
        ResolveLayered(o, rest, slot, requested);
      }
    }
  }

  /** Below the top every forcing context has patched the first module, so if that one is not forced
      there are none. */
  lemma {:induction false} NotForced(o: Bindings, fs: seq<Frame>)
    requires StackOk(o, fs) && (fs != [] ==> Top(fs).phase.Running?)
    requires forall x :: x in o ==> o[x] == Library(x)
    requires VideoUtils in Layered(o, fs) && !Layered(o, fs)[VideoUtils].Forced?
    ensures Backends(fs) == [] && Layered(o, fs)[VideoUtils] == Library(VideoUtils)
  {
    if fs != [] {
      var rest := fs[..|fs| - 1];
      var below := Layered(o, rest);
      assert VideoUtils !in Top(fs).saved;
      NotForced(o, rest);
    }
  }
}
