/** Any number of admin-node commands at once: one operation lock, one converge
    lock inside it, one mode file, an operator who sets the mode at will, and
    processes that may die anywhere. */
module Protocol {
  import opened Text

  datatype Mode = Locked | Init | Normal | Restoring | RestoreFailed

  datatype Command = Backup | Restore | GiteaRestore(converges: bool) | Converge

  /** Where a process is in its command. */
  datatype Place =
    | Start       // nothing done
    | Waiting     // mode looked at (backup, restore), lock not taken
    | Refused     // a restore that did not get the lock and has the mode still to mark
    | Working     // holds the lock
    | Marked      // a Gitea restore that has set the mode to restore
    | Validated   // own steps and validation succeeded, mode still to be set
    | Settled     // mode set to normal
    | Converging  // holds the converge lock as well
    | Failing     // an error whose mode is still to be marked
    | Leaving     // everything done but giving the lock back
    | Gone

  /** `seen` is the mode as it was when the command looked. */
  datatype Process = Process(command: Command, place: Place, seen: Mode)

  datatype State = State(procs: seq<Process>, op: Option<nat>, conv: Option<nat>, mode: Mode)

  datatype Action =
    | SetMode(mode: Mode)               // `admin-node mode set`, without any lock
    | Launch(p: nat, command: Command)  // a finished slot starts a new command
    | Begin(p: nat)
    | TryLock(p: nat, broken: bool)     // `broken`: an error other than contention
    | GiveUp(p: nat)                    // a backup's waiting time is over
    | Act(p: nat)                       // capture, destruction or convergence proper
    | Advance(p: nat, ok: bool)         // the next step of the command, failing if not `ok`
    | Die(p: nat)                       // the kernel drops the locks of a dead process

  function At(s: State, p: nat, place: Place): State
    requires p < |s.procs|
  {
    s.(procs := s.procs[p := s.procs[p].(place := place)])
  }

  /** With an empty lock path no lock is taken and everyone gets through. */
  function LockOp(path: bool, s: State, p: nat, broken: bool): State
    requires p < |s.procs|
  {
    var cmd := s.procs[p].command;
    if path && (broken || s.op.Some?) then
      // refused: a backup that met contention keeps waiting
      if cmd.Backup? then (if broken then At(s, p, Gone) else s)
      else if cmd.Restore? then At(s, p, Refused)
      else At(s, p, Gone)
    else
      var t := At(s, p, Working);
      if path then t.(op := Some(p)) else t
  }

  /** `converge.Run` at its own lock: contention is the quiet exit. */
  function LockConv(s: State, p: nat, broken: bool): State
    requires p < |s.procs|
  {
    var gitea := s.procs[p].command.GiteaRestore?;
    if broken then At(s, p, if gitea then Failing else Leaving)
    else if s.conv.Some? then At(s, p, Leaving)
    else At(s, p, Converging).(conv := Some(p))
  }

  function Advanced(s: State, p: nat, ok: bool): State
    requires p < |s.procs|
  {
    var me := s.procs[p];
    match me.place
    case Refused => At(if ok then s.(mode := RestoreFailed) else s, p, Gone)
    case Working =>
      (match me.command
       case Backup => At(s, p, Leaving)
       case Restore => At(s, p, if ok then Validated else Failing)
       case GiteaRestore(_) => if ok then At(s.(mode := Restoring), p, Marked) else At(s, p, Leaving)
       case Converge => LockConv(s, p, !ok))
    case Marked => At(s, p, if ok then Validated else Failing)
    case Validated =>
      if ok then At(s.(mode := Normal), p, Settled)
      else At(s, p, if me.command.GiteaRestore? then Failing else Leaving)
    case Settled =>
      if me.command.GiteaRestore? && me.command.converges then LockConv(s, p, !ok) else At(s, p, Leaving)
    case Converging =>
      At(s.(conv := None), p, if !ok && me.command.GiteaRestore? then Failing else Leaving)
    case Failing => At(if ok then s.(mode := RestoreFailed) else s, p, Leaving)
    case Leaving => At(if s.op == Some(p) then s.(op := None) else s, p, Gone)
    case _ => s
  }

  /** One action; one that is not possible now changes nothing. */
  function Step(path: bool, s: State, a: Action): State
  {
    match a
    case SetMode(m) => s.(mode := m)
    case Launch(p, cmd) =>
      if p < |s.procs| && s.procs[p].place.Gone? then s.(procs := s.procs[p := Process(cmd, Start, s.mode)]) else s
    case Begin(p) =>
      if p < |s.procs| && s.procs[p].place.Start? then
        var looked := s.(procs := s.procs[p := s.procs[p].(seen := s.mode)]);
        var allowed := match s.procs[p].command
          case Backup => s.mode == Normal
          case Restore => s.mode == Restoring
          case _ => true;
        At(looked, p, if allowed then Waiting else Gone)
      else s
    case TryLock(p, broken) =>
      if p < |s.procs| && s.procs[p].place.Waiting? then LockOp(path, s, p, broken) else s
    case GiveUp(p) =>
      if p < |s.procs| && s.procs[p].place.Waiting? && s.procs[p].command.Backup? then At(s, p, Gone) else s
    case Act(_) => s
    case Advance(p, ok) => if p < |s.procs| then Advanced(s, p, ok) else s
    case Die(p) =>
      if p < |s.procs| then
        At(s, p, Gone).(op := if s.op == Some(p) then None else s.op, conv := if s.conv == Some(p) then None else s.conv)
      else s
  }

  function Run(path: bool, s: State, actions: seq<Action>): State
  {
    if actions == [] then s else Step(path, Run(path, s, actions[..|actions| - 1]), actions[|actions| - 1])
  }

  predicate Initial(s: State)
  {
    s.op == None && s.conv == None && forall p :: 0 <= p < |s.procs| ==> s.procs[p].place.Start?
  }

  // ------------------------------------------------------------ what is observed

  predicate Inside(place: Place)
  {
    place.Working? || place.Marked? || place.Validated? || place.Settled? || place.Converging? || place.Failing? || place.Leaving?
  }

  predicate Holds(s: State, p: nat) { p < |s.procs| && Inside(s.procs[p].place) }

  /** The action captures, replaces or converges something. */
  predicate Touches(s: State, a: Action)
  {
    a.Act? && a.p < |s.procs| &&
    var me := s.procs[a.p];
    match me.command
    case Backup => me.place.Working?
    case Restore => me.place.Working?
    case GiteaRestore(_) => me.place.Marked? || me.place.Converging?
    case Converge => me.place.Converging?
  }

  predicate Captures(s: State, a: Action) { Touches(s, a) && s.procs[a.p].command.Backup? }

  /** A command, not the operator, sets the mode. */
  predicate WritesMode(s: State, a: Action, m: Mode)
  {
    a.Advance? && a.ok && a.p < |s.procs| &&
    var me := s.procs[a.p];
    match m
    case Normal => me.place.Validated?
    case Restoring => me.place.Working? && me.command.GiteaRestore?
    case RestoreFailed => me.place.Refused? || me.place.Failing?
    case _ => false
  }

  /** Another convergence is under way and this one leaves quietly. */
  predicate LeavesQuietly(s: State, a: Action)
  {
    a.Advance? && a.ok && a.p < |s.procs| && s.conv.Some? &&
    var me := s.procs[a.p];
    (me.place.Working? && me.command.Converge?) ||
    (me.place.Settled? && me.command.GiteaRestore? && me.command.converges)
  }

  // ------------------------------------------------------------------ invariant

  predicate OwnsProperly(s: State, p: nat)
    requires p < |s.procs|
  {
    && (Inside(s.procs[p].place) <==> s.op == Some(p))
    && (s.procs[p].place.Converging? <==> s.conv == Some(p))
  }

  /** A command is only where its own code can bring it. */
  predicate InCharacter(me: Process)
  {
    && (me.place.Refused? ==> me.command.Restore?)
    && (me.place.Marked? ==> me.command.GiteaRestore?)
    && (me.place.Validated? || me.place.Settled? || me.place.Failing? ==> me.command.Restore? || me.command.GiteaRestore?)
    && (me.place.Converging? ==> me.command.Converge? || (me.command.GiteaRestore? && me.command.converges))
    && (me.command.Backup? && !me.place.Start? && !me.place.Gone? ==> me.seen == Normal)
    && (me.command.Restore? && !me.place.Start? && !me.place.Gone? ==> me.seen == Restoring)
  }

  predicate Sane(s: State)
  {
    && (s.op.Some? ==> s.op.value < |s.procs|) && (s.conv.Some? ==> s.conv.value < |s.procs|)
    && forall p :: 0 <= p < |s.procs| ==> OwnsProperly(s, p) && InCharacter(s.procs[p])
  }

  /** Nobody but `p` moves, and no lock passes to or from anybody but `p`. */
  predicate OnlyMoves(s: State, t: State, p: nat)
    requires p < |s.procs|
  {
    && |t.procs| == |s.procs| && t.procs == s.procs[p := t.procs[p]]
    && (t.op == s.op || (t.op == None && s.op == Some(p)) || (s.op == None && t.op == Some(p)))
    && (t.conv == s.conv || (t.conv == None && s.conv == Some(p)) || (s.conv == None && t.conv == Some(p)))
  }

  lemma SaneAfterMove(s: State, t: State, p: nat)
    requires Sane(s) && p < |s.procs| && OnlyMoves(s, t, p)
    requires OwnsProperly(t, p) && InCharacter(t.procs[p])
    ensures Sane(t)
  {
    hide InCharacter;
    forall q | 0 <= q < |t.procs| ensures OwnsProperly(t, q) && InCharacter(t.procs[q]) {
      assert OwnsProperly(s, q);
    }
  }

  lemma SaneAdvance(s: State, p: nat, ok: bool)
    requires Sane(s) && p < |s.procs|
    ensures Sane(Advanced(s, p, ok)) && |Advanced(s, p, ok).procs| == |s.procs|
  {
    assert OwnsProperly(s, p) && InCharacter(s.procs[p]);
    hide Sane;
    SaneAfterMove(s, Advanced(s, p, ok), p);
  }

  lemma SaneStep(s: State, a: Action)
    requires Sane(s)
    ensures Sane(Step(true, s, a)) && |Step(true, s, a).procs| == |s.procs|
  {
    var t := Step(true, s, a);
    if a.Advance? {
      if a.p < |s.procs| {
        SaneAdvance(s, a.p, a.ok);
      }
    } else if a.SetMode? {
      forall q | 0 <= q < |t.procs| ensures OwnsProperly(t, q) && InCharacter(t.procs[q]) {
        assert OwnsProperly(s, q);
      }
    } else if a.p < |s.procs| {
      assert OwnsProperly(s, a.p) && InCharacter(s.procs[a.p]);
      hide Sane;
      SaneAfterMove(s, t, a.p);
    }
  }

  lemma {:induction false} SaneAlways(s: State, actions: seq<Action>)
    requires Initial(s)
    ensures Sane(Run(true, s, actions)) && |Run(true, s, actions).procs| == |s.procs|
  {
    if actions != [] {
      SaneAlways(s, actions[..|actions| - 1]);
      SaneStep(Run(true, s, actions[..|actions| - 1]), actions[|actions| - 1]);
    }
  }

  // ------------------------------------------------------------------- history

  /** The state after the first `k` actions. */
  function After(s: State, actions: seq<Action>, k: nat): State
    requires k <= |actions|
  {
    Run(true, s, actions[..k])
  }

  lemma AfterStep(s: State, actions: seq<Action>, k: nat)
    requires k < |actions|
    ensures After(s, actions, k + 1) == Step(true, After(s, actions, k), actions[k])
  {
    assert actions[..k + 1][..k] == actions[..k];
  }

  lemma AfterAll(s: State, actions: seq<Action>)
    ensures After(s, actions, |actions|) == Run(true, s, actions)
  {
    assert actions[..|actions|] == actions;
  }

  lemma SaneAfter(s: State, actions: seq<Action>, k: nat)
    requires Initial(s) && k <= |actions|
    ensures Sane(After(s, actions, k)) && |After(s, actions, k).procs| == |s.procs|
  {
    SaneAlways(s, actions[..k]);
  }

  /** Action `k` gave `p` the operation lock, and up to the first `n` actions `p` has
      held it at every moment since. */
  ghost predicate LockedSince(s: State, actions: seq<Action>, k: nat, n: nat, p: nat)
    requires n <= |actions|
  {
    && k < n && actions[k].TryLock? && actions[k].p == p && !Holds(After(s, actions, k), p)
    && forall j :: k < j <= n ==> HasLock(After(s, actions, j), p)
  }

  predicate HasLock(s: State, p: nat) { Holds(s, p) && s.op == Some(p) }

  /** Only a lock step brings a process inside. */
  lemma EntersByLock(s: State, a: Action, p: nat)
    requires Sane(s) && !Holds(s, p) && Holds(Step(true, s, a), p)
    ensures a.TryLock? && a.p == p
  {
    if p < |s.procs| {
      assert InCharacter(s.procs[p]);
    }
  }

  lemma HolderHasLock(s: State, p: nat)
    requires Sane(s) && Holds(s, p)
    ensures HasLock(s, p)
  {
    assert OwnsProperly(s, p);
  }

  lemma {:induction false} LockedSome(s: State, actions: seq<Action>, n: nat, p: nat) returns (k: nat)
    requires Initial(s) && n <= |actions| && Holds(After(s, actions, n), p)
    ensures LockedSince(s, actions, k, n, p)
  {
    hide Sane, Inside, After;
    SaneAfter(s, actions, n);
    HolderHasLock(After(s, actions, n), p);
    if n == 0 {
      k := 0;
      NobodyInside(s, actions, p);
    } else {
      AfterStep(s, actions, n - 1);
      SaneAfter(s, actions, n - 1);
      if Holds(After(s, actions, n - 1), p) {
        k := LockedSome(s, actions, n - 1, p);
      } else {
        k := n - 1;
        EntersByLock(After(s, actions, n - 1), actions[n - 1], p);
      }
    }
  }

  lemma NobodyInside(s: State, actions: seq<Action>, p: nat)
    requires Initial(s)
    ensures !Holds(After(s, actions, 0), p)
  {
    assert actions[..0] == [];
  }

  /** Action `j` is the success of everything `p` does before it writes `normal`. */
  ghost predicate Succeeded(s: State, actions: seq<Action>, j: nat, p: nat)
    requires j < |actions|
  {
    var t := After(s, actions, j);
    actions[j] == Advance(p, true) && p < |t.procs| &&
    ((t.procs[p].place.Working? && t.procs[p].command.Restore?) ||
     (t.procs[p].place.Marked? && t.procs[p].command.GiteaRestore?))
  }

  /** Only that success makes a process inside the lock ready to write `normal`. */
  lemma ValidatesByAdvance(s: State, a: Action, p: nat)
    requires Sane(s) && p < |s.procs| && !s.procs[p].place.Validated?
    requires |Step(true, s, a).procs| == |s.procs| && Step(true, s, a).procs[p].place.Validated?
    ensures a == Advance(p, true)
    ensures (s.procs[p].place.Working? && s.procs[p].command.Restore?) || (s.procs[p].place.Marked? && s.procs[p].command.GiteaRestore?)
  {
    assert InCharacter(s.procs[p]);
  }

  lemma {:induction false} SucceededSince(s: State, actions: seq<Action>, k: nat, n: nat, p: nat) returns (j: nat)
    requires Initial(s) && n <= |actions| && LockedSince(s, actions, k, n, p)
    requires p < |s.procs| && |After(s, actions, n).procs| == |s.procs| && After(s, actions, n).procs[p].place.Validated?
    ensures k < j < n && Succeeded(s, actions, j, p)
  {
    hide Sane, After, Inside;
    SaneAfter(s, actions, n - 1);
    AfterStep(s, actions, n - 1);
    if After(s, actions, n - 1).procs[p].place.Validated? {
      ValidatedIsInside(After(s, actions, n - 1), p);
      assert n - 1 != k;
      j := SucceededSince(s, actions, k, n - 1, p);
    } else {
      ValidatesByAdvance(After(s, actions, n - 1), actions[n - 1], p);
      j := n - 1;
    }
  }

  lemma ValidatedIsInside(s: State, p: nat)
    requires p < |s.procs| && s.procs[p].place.Validated?
    ensures Holds(s, p)
  {
  }

  /** Action `k` was the begin of the command `p` is still at after `n` actions. */
  ghost predicate BegunAt(s: State, actions: seq<Action>, k: nat, n: nat, p: nat)
    requires n <= |actions|
  {
    && k < n && actions[k] == Begin(p) && IsAt(After(s, actions, k), p, Start)
    && forall j :: k < j <= n ==> UnderWay(After(s, actions, j), p)
  }

  predicate IsAt(s: State, p: nat, place: Place) { p < |s.procs| && s.procs[p].place == place }

  predicate UnderWay(s: State, p: nat)
  {
    p < |s.procs| && !s.procs[p].place.Start? && !s.procs[p].place.Gone?
  }

  lemma StartsByBegin(s: State, a: Action, p: nat)
    requires !UnderWay(s, p) && UnderWay(Step(true, s, a), p)
    ensures a == Begin(p) && IsAt(s, p, Start)
  {
  }

  lemma {:induction false} BegunSome(s: State, actions: seq<Action>, n: nat, p: nat) returns (k: nat)
    requires Initial(s) && n <= |actions| && UnderWay(After(s, actions, n), p)
    ensures BegunAt(s, actions, k, n, p)
  {
    hide After, UnderWay, IsAt;
    if n == 0 {
      k := 0;
      NobodyUnderWay(s, actions, p);
    } else {
      AfterStep(s, actions, n - 1);
      if UnderWay(After(s, actions, n - 1), p) {
        k := BegunSome(s, actions, n - 1, p);
      } else {
        k := n - 1;
        StartsByBegin(After(s, actions, n - 1), actions[n - 1], p);
      }
    }
  }

  lemma NobodyUnderWay(s: State, actions: seq<Action>, p: nat)
    requires Initial(s)
    ensures !UnderWay(After(s, actions, 0), p)
  {
    assert actions[..0] == [];
  }

  /** While a command is under way its kind does not change. */
  lemma {:induction false} SameCommand(s: State, actions: seq<Action>, k: nat, n: nat, p: nat)
    requires n <= |actions| && BegunAt(s, actions, k, n, p)
    ensures p < |After(s, actions, k).procs|
    ensures After(s, actions, n).procs[p].command == After(s, actions, k).procs[p].command
    decreases n
  {
    hide After;
    AfterStep(s, actions, n - 1);
    if n - 1 > k {
      SameCommand(s, actions, k, n - 1, p);
    }
  }

  /** The action writes the mode: the operator's, or a command's own. */
  ghost predicate Writes(s: State, a: Action)
  {
    a.SetMode? || exists m :: WritesMode(s, a, m)
  }

  /** Action `j` is the last mode write after action `k` among the first `n`. */
  ghost predicate LastWrite(s: State, actions: seq<Action>, k: nat, j: nat, n: nat)
    requires n <= |actions|
  {
    && k < j < n && Writes(After(s, actions, j), actions[j])
    && forall i :: j < i < n ==> !Writes(After(s, actions, i), actions[i])
  }

  ghost predicate Unwritten(s: State, actions: seq<Action>, k: nat, n: nat)
    requires n <= |actions|
  {
    forall i :: k < i < n ==> !Writes(After(s, actions, i), actions[i])
  }

  /** The mode is what the last write after action `k` made it, or else still what it
      was after that action. */
  lemma {:induction false} ModeSince(s: State, actions: seq<Action>, k: nat, n: nat)
    requires k < n <= |actions|
    ensures Unwritten(s, actions, k, n) ==> After(s, actions, n).mode == After(s, actions, k + 1).mode
    ensures !Unwritten(s, actions, k, n) ==> exists j :: LastWrite(s, actions, k, j, n)
    ensures forall j: nat :: LastWrite(s, actions, k, j, n) ==> After(s, actions, n).mode == After(s, actions, j + 1).mode
    decreases n
  {
    hide After, Writes;
    if n > k + 1 {
      ModeSince(s, actions, k, n - 1);
      AfterStep(s, actions, n - 1);
      UnwrittenKeeps(After(s, actions, n - 1), actions[n - 1]);
      if Writes(After(s, actions, n - 1), actions[n - 1]) {
        assert LastWrite(s, actions, k, n - 1, n);
      } else {
        forall j | LastWrite(s, actions, k, j, n) ensures LastWrite(s, actions, k, j, n - 1) { }
        if !Unwritten(s, actions, k, n) {
          assert !Unwritten(s, actions, k, n - 1);
          var j :| LastWrite(s, actions, k, j, n - 1);
          assert LastWrite(s, actions, k, j, n);
        }
      }
    }
  }

  lemma UnwrittenKeeps(s: State, a: Action)
    ensures !Writes(s, a) ==> Step(true, s, a).mode == s.mode
  {
    ModeChangesAreWrites(true, s, a);
  }

  // --------------------------------------------------------------- the theorems

  /** Safety over every run and every next action: one holder at most; whatever is
      captured, replaced or converged is so by the holder; the converge lock is held
      inside the operation lock only, so no command ever finds it taken; and the
      one mode write outside the lock is a refused restore marking its failure. */
  lemma Safety(s: State, actions: seq<Action>, a: Action)
    requires Initial(s)
    ensures var t := Run(true, s, actions);
      && (forall p, q :: Holds(t, p) && Holds(t, q) ==> p == q)
      && (Touches(t, a) ==> t.op == Some(a.p) && Holds(t, a.p))
      && (Captures(t, a) ==> t.procs[a.p].seen == Normal)
      && (t.conv.Some? ==> t.op == t.conv)
      && !LeavesQuietly(t, a)
      && (forall m :: WritesMode(t, a, m) && t.op != Some(a.p) ==>
           m == RestoreFailed && t.procs[a.p].place.Refused? && t.procs[a.p].command.Restore?)
  {
    var t := Run(true, s, actions);
    SaneAlways(s, actions);
    forall p, q | Holds(t, p) && Holds(t, q) ensures p == q {
      assert OwnsProperly(t, p) && OwnsProperly(t, q);
    }
    if a.Act? || a.Advance? {
      if a.p < |t.procs| {
        assert OwnsProperly(t, a.p) && InCharacter(t.procs[a.p]);
      }
    }
    if t.conv.Some? {
      assert OwnsProperly(t, t.conv.value);
    }
  }

  /** `normal` only after success, over the whole history: when a command writes
      `normal`, there was a step at which it got the operation lock, it has held the
      lock at every moment since, and in between all of its own work succeeded. */
  lemma NormalAfterSuccess(s: State, actions: seq<Action>, a: Action)
    requires Initial(s) && WritesMode(Run(true, s, actions), a, Normal)
    ensures exists k: nat, j: nat :: LockedSince(s, actions, k, |actions|, a.p) && k < j < |actions| && Succeeded(s, actions, j, a.p)
  {
    hide After, Sane, LockedSince, Succeeded;
    var n := |actions|;
    AfterAll(s, actions);
    SaneAfter(s, actions, n);
    var k := LockedSome(s, actions, n, a.p);
    var j := SucceededSince(s, actions, k, n, a.p);
  }

  /** The mode changes only by the operator or by a command's own write. */
  lemma ModeChangesAreWrites(path: bool, s: State, a: Action)
    ensures Step(path, s, a).mode != s.mode ==> a.SetMode? || WritesMode(s, a, Step(path, s, a).mode)
  {
  }

  ghost predicate Exclusive(path: bool, processes: nat)
  {
    forall s, actions :: Initial(s) && |s.procs| == processes ==>
      forall p, q :: Holds(Run(path, s, actions), p) && Holds(Run(path, s, actions), q) ==> p == q
  }

  /** Exclusion needs the lock path: with an empty one two commands get in. */
  lemma ExclusionExactly(path: bool, processes: nat)
    requires processes >= 2
    ensures Exclusive(path, processes) <==> path
  {
    if path {
      forall s, actions | Initial(s) && |s.procs| == processes
        ensures forall p, q :: Holds(Run(path, s, actions), p) && Holds(Run(path, s, actions), q) ==> p == q
      {
        Safety(s, actions, SetMode(Normal));
      }
    } else {
      var s := State(seq(processes, i => Process(Converge, Start, Normal)), None, None, Normal);
      var actions := [Begin(0), TryLock(0, false), Begin(1), TryLock(1, false)];
      TwoGetIn(s);
      assert Holds(Run(false, s, actions), 0) && Holds(Run(false, s, actions), 1);
    }
  }

  lemma FourSteps(path: bool, s: State, a: Action, b: Action, c: Action, d: Action)
    ensures Run(path, s, [a, b, c, d]) == Step(path, Step(path, Step(path, Step(path, s, a), b), c), d)
  {
    assert [a, b, c, d][..3] == [a, b, c] && [a, b, c][..2] == [a, b] && [a, b][..1] == [a] && [a][..0] == [];
    assert Run(path, s, [a]) == Step(path, s, a);
    assert Run(path, s, [a, b]) == Step(path, Run(path, s, [a]), b);
    assert Run(path, s, [a, b, c]) == Step(path, Run(path, s, [a, b]), c);
  }

  lemma TwoGetIn(s: State)
    requires Initial(s) && |s.procs| >= 2 && s.procs[0].command.Converge? && s.procs[1].command.Converge?
    ensures var t := Run(false, s, [Begin(0), TryLock(0, false), Begin(1), TryLock(1, false)]);
      Holds(t, 0) && Holds(t, 1)
  {
    FourSteps(false, s, Begin(0), TryLock(0, false), Begin(1), TryLock(1, false));
  }

  /** The mode was `normal` before action `k`, and it is not now exactly if the last
      mode write since made it something else. */
  ghost predicate ModeExplained(s: State, actions: seq<Action>, k: nat)
    requires k <= |actions|
  {
    && After(s, actions, k).mode == Normal
    && (Run(true, s, actions).mode != Normal <==>
        exists j: nat :: LastWrite(s, actions, k, j, |actions|) && After(s, actions, j + 1).mode != Normal)
  }

  /** The mode a backup captures in, over every run: since the backup began, when the
      mode was `normal`, it is another one if and only if it was written since and the
      last such write was not `normal`. */
  lemma CapturedModeExactly(s: State, actions: seq<Action>, a: Action)
    requires Initial(s) && Captures(Run(true, s, actions), a)
    ensures exists k: nat :: BegunAt(s, actions, k, |actions|, a.p) && ModeExplained(s, actions, k)
  {
    hide After, BegunAt, LastWrite, Unwritten;
    var n := |actions|;
    AfterAll(s, actions);
    var k := BegunSome(s, actions, n, a.p);
    BegunNormal(s, actions, k, n, a.p);
    ModeSince(s, actions, k, n);
  }

  lemma BegunNormal(s: State, actions: seq<Action>, k: nat, n: nat, p: nat)
    requires n <= |actions| && BegunAt(s, actions, k, n, p) && After(s, actions, n).procs[p].command.Backup?
    ensures After(s, actions, k).mode == Normal && After(s, actions, k + 1).mode == Normal && k < n
  {
    hide After;
    SameCommand(s, actions, k, n, p);
    AfterStep(s, actions, k);
  }

  /** No command that could write the mode runs, and the operator does not. */
  predicate Calm(s: State, actions: seq<Action>)
  {
    && (forall p :: 0 <= p < |s.procs| ==> s.procs[p].command.Backup? || s.procs[p].command.Converge?)
    && (forall i :: 0 <= i < |actions| ==> !actions[i].SetMode?)
    && (forall i :: 0 <= i < |actions| && actions[i].Launch? ==> actions[i].command.Backup? || actions[i].command.Converge?)
  }

  predicate OnlyCalm(s: State)
  {
    forall p :: 0 <= p < |s.procs| ==> s.procs[p].command.Backup? || s.procs[p].command.Converge?
  }

  lemma CalmStep(s: State, a: Action)
    requires OnlyCalm(s) && !a.SetMode? && (a.Launch? ==> a.command.Backup? || a.command.Converge?)
    ensures OnlyCalm(Step(true, s, a))
  {
  }

  lemma CalmWritesNothing(s: State, a: Action)
    requires Sane(s) && OnlyCalm(s) && !a.SetMode?
    ensures !Writes(s, a)
  {
    if a.Advance? && a.p < |s.procs| {
      assert InCharacter(s.procs[a.p]);
    }
  }

  lemma {:induction false} CalmAlways(s: State, actions: seq<Action>, k: nat)
    requires Calm(s, actions) && k <= |actions|
    ensures OnlyCalm(After(s, actions, k))
  {
    hide OnlyCalm;
    if k == 0 {
      assert actions[..0] == [];
      assert OnlyCalm(s) by { CalmBegins(s, actions); }
    } else {
      CalmAlways(s, actions, k - 1);
      AfterStep(s, actions, k - 1);
      CalmStep(After(s, actions, k - 1), actions[k - 1]);
    }
  }

  lemma CalmBegins(s: State, actions: seq<Action>)
    requires Calm(s, actions)
    ensures OnlyCalm(s)
  {
  }

  /** Among backups and convergences alone, with the operator's hands off the mode,
      every capture happens in mode `normal`. */
  lemma CalmCapturesInNormal(s: State, actions: seq<Action>, a: Action)
    requires Initial(s) && Calm(s, actions) && Captures(Run(true, s, actions), a)
    ensures Run(true, s, actions).mode == Normal
  {
    hide After, Writes, OnlyCalm, Sane;
    CapturedModeExactly(s, actions, a);
    forall j | 0 <= j < |actions| ensures !Writes(After(s, actions, j), actions[j]) {
      SaneAfter(s, actions, j);
      CalmAlways(s, actions, j);
      CalmWritesNothing(After(s, actions, j), actions[j]);
    }
  }

  /** The mode a backup looked at may be outdated when it captures: it looks before
      it waits for the lock, and does not look again. */
  lemma CaptureAfterModeChange()
    ensures exists s: State, actions: seq<Action>, a: Action ::
      Initial(s) && Captures(Run(true, s, actions), a) && Run(true, s, actions).mode == RestoreFailed
  {
    var s := State([Process(Backup, Start, Normal)], None, None, Normal);
    var actions := [Begin(0), SetMode(RestoreFailed), TryLock(0, false), Act(0)];
    FourSteps(true, s, Begin(0), SetMode(RestoreFailed), TryLock(0, false), Act(0));
    assert Captures(Run(true, s, actions), Act(0));
  }

  /** Since the command of `p` began the mode was written, last to `restore_failed`. */
  ghost predicate MarkedMeanwhile(s: State, actions: seq<Action>, p: nat)
  {
    exists k: nat, j: nat :: BegunAt(s, actions, k, |actions|, p) && LastWrite(s, actions, k, j, |actions|)
      && After(s, actions, j + 1).mode == RestoreFailed
  }

  /** Which commands clear `restore_failed`, over every run: an action that is not the
      operator's takes the mode from there to `normal` if and only if it is the final
      write of a holder whose work has succeeded, and that is a Gitea restore, or a
      full restore since whose begin, in mode `restore`, somebody marked a failure. */
  lemma FailureClearedExactly(s: State, actions: seq<Action>, a: Action)
    requires Initial(s) && !a.SetMode? && Run(true, s, actions).mode == RestoreFailed
    ensures var t := Run(true, s, actions);
      Step(true, t, a).mode == Normal <==>
      (a.Advance? && a.ok && IsAt(t, a.p, Validated) && t.op == Some(a.p) &&
       (t.procs[a.p].command.GiteaRestore? || (t.procs[a.p].command.Restore? && MarkedMeanwhile(s, actions, a.p))))
  {
    hide After, MarkedMeanwhile, Sane;
    var t := Run(true, s, actions);
    AfterAll(s, actions);
    SaneAfter(s, actions, |actions|);
    ModeChangesAreWrites(true, t, a);
    if Step(true, t, a).mode == Normal {
      HolderHasLock(t, a.p);
      ValidatedCommand(t, a.p);
      if t.procs[a.p].command.Restore? {
        RestoreWasMarked(s, actions, a.p);
      }
    }
  }

  lemma ValidatedCommand(s: State, p: nat)
    requires Sane(s) && IsAt(s, p, Validated)
    ensures s.procs[p].command.Restore? || s.procs[p].command.GiteaRestore?
  {
    assert InCharacter(s.procs[p]);
  }

  lemma RestoreWasMarked(s: State, actions: seq<Action>, p: nat)
    requires Initial(s) && Run(true, s, actions).mode == RestoreFailed
    requires UnderWay(Run(true, s, actions), p) && Run(true, s, actions).procs[p].command.Restore?
    ensures MarkedMeanwhile(s, actions, p)
  {
    hide After, LastWrite, Unwritten;
    var n := |actions|;
    AfterAll(s, actions);
    var k := BegunSome(s, actions, n, p);
    SameCommand(s, actions, k, n, p);
    AfterStep(s, actions, k);
    ModeSince(s, actions, k, n);
    assert !Unwritten(s, actions, k, n);
    var j :| LastWrite(s, actions, k, j, n);
  }

  /** A Gitea restore does not look at the mode: it can turn the `restore_failed` of
      a full restore into `normal`. */
  lemma GiteaRestoreClearsFailure()
    ensures exists s: State, actions: seq<Action>, a: Action ::
      Initial(s) && s.mode == RestoreFailed && WritesMode(Run(true, s, actions), a, Normal) &&
      (forall b :: b in actions ==> !b.SetMode?)
  {
    var s := State([Process(GiteaRestore(false), Start, Normal)], None, None, RestoreFailed);
    var actions := [Begin(0), TryLock(0, false), Advance(0, true), Advance(0, true)];
    FourSteps(true, s, Begin(0), TryLock(0, false), Advance(0, true), Advance(0, true));
    assert WritesMode(Run(true, s, actions), Advance(0, true), Normal);
  }

  /** A restore that is refused the lock marks the mode while another command holds it. */
  lemma RefusedRestoreMarks()
    ensures exists s: State, actions: seq<Action>, a: Action ::
      Initial(s) && WritesMode(Run(true, s, actions), a, RestoreFailed) &&
      a.Advance? && Run(true, s, actions).op.Some? && Run(true, s, actions).op != Some(a.p)
  {
    var s := State([Process(Converge, Start, Normal), Process(Restore, Start, Normal)], None, None, Restoring);
    var first := [Begin(0), TryLock(0, false), Begin(1), TryLock(1, false)];
    FourSteps(true, s, Begin(0), TryLock(0, false), Begin(1), TryLock(1, false));
    assert WritesMode(Run(true, s, first), Advance(1, true), RestoreFailed);
  }
}
