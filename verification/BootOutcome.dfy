/**
 * How boot sessions end.  An installer that reports success leaves a Pi that boots unless
 * the Pi's last deadline passes first; and as long as deadlines pass only where a side has
 * nothing else to wait for, every session ends with the Pi booted.
 */
module BootOutcome {
  import opened Bytes
  import opened BootShared
  import opened BootSession
  import opened BootProof
  import opened BootCompletion
  import Crc
  import Pi = Bootloader
  import Host = Installer

  // ---------------------------------------- what the installer's success means

  /** In this run the deadline of the loader's last word passes. */
  ghost predicate Late(c: Session, w: World, actions: seq<Action>)
    requires Possible(c, w, actions)
    decreases |actions|
  {
    actions != [] && ((actions[0].PiDeadline? && w.pi.stage.AwaitDone?)
                      || Late(c, Next(c, w, actions[0]), actions[1..]))
  }

  /** The loader has verified the program and given up after that. */
  predicate GaveUpLast(w: World) {
    w.pi.stage == Pi.Failed(2)
  }

  lemma LastWordOnlyBoots(c: Session, w: World)
    requires Admissible(c) && Inv(c, w) && Enabled(c, w, PiByte)
    ensures !GaveUpLast(Next(c, w, PiByte))
  {
    if w.pi.got == 3 && w.pi.stage.AwaitDone? {
      DoneWord(c, w);
    }
  }

  lemma PollGivesUpEarly(p: Pi.Pi, chunk: Pi.Chunk, expired: bool)
    requires p.stage.Receiving?
    ensures Pi.Step(p, Pi.Poll(chunk, expired)).stage != Pi.Failed(2)
  {
    if chunk == [] && expired {
      Pi.IdlePollFails(p);
    } else {
      Pi.PollRounds(p, chunk, expired);
    }
  }

  lemma OnlyLateDeadlineGivesUp(p: Pi.Pi)
    requires Pi.ReadsWord(p.stage)
    ensures Pi.Step(p, Pi.Deadline).stage == Pi.Failed(2) <==> p.stage.AwaitDone?
  {
  }

  /** A verified image is given up only at that deadline. */
  lemma OnlyLateGivesUp(c: Session, w: World, a: Action)
    requires Admissible(c) && Inv(c, w) && Enabled(c, w, a)
    ensures GaveUpLast(Next(c, w, a)) <==> GaveUpLast(w) || (a.PiDeadline? && w.pi.stage.AwaitDone?)
  {
    if a.PiByte? {
      LastWordOnlyBoots(c, w);
    } else if a.PiPoll? {
      var x, chunk := PollStep(c, w, a);
      PollGivesUpEarly(w.pi, chunk, a.expired);
    } else if a.PiDeadline? {
      OnlyLateDeadlineGivesUp(w.pi);
    }
  }

  lemma {:induction false} LateGivesUp(c: Session, w: World, actions: seq<Action>)
    requires Admissible(c) && Inv(c, w) && Possible(c, w, actions)
    ensures GaveUpLast(End(c, w, actions)) <==> GaveUpLast(w) || Late(c, w, actions)
    decreases |actions|
  {
    if actions != [] {
      NextKeeps(c, w, actions[0]);
      OnlyLateGivesUp(c, w, actions[0]);
      LateGivesUp(c, Next(c, w, actions[0]), actions[1..]);
    }
  }

  /** An installer that is done has been told that the image is verified. */
  lemma DoneMeansVerified(c: Session, w: World)
    requires Inv(c, w) && w.host.stage.Done?
    ensures w.pi.stage.AwaitDone? || w.pi.stage.Booted? || GaveUpLast(w)
  {
  }

  /**
   * When the installer reports success the Pi boots, or has yet to read the last word,
   * unless its deadline for that word passes: exactly then it gives up.
   */
  lemma SuccessMeansBootedUnlessLate(c: Session, actions: seq<Action>)
    requires Admissible(c) && Possible(c, Initial(c), actions)
    requires End(c, Initial(c), actions).host.stage.Done?
    ensures var pi := End(c, Initial(c), actions).pi;
            (pi.stage.Failed? <==> Late(c, Initial(c), actions))
            && (Pi.Over(pi.stage) ==> (pi.stage.Booted? <==> !Late(c, Initial(c), actions)))
            && (!Late(c, Initial(c), actions) ==> pi.stage.AwaitDone? || pi.stage.Booted?)
  {
    InitialHolds(c);
    RunKeeps(c, Initial(c), actions);
    LateGivesUp(c, Initial(c), actions);
    DoneMeansVerified(c, End(c, Initial(c), actions));
  }

  // ------------------------------------------------------------ calm sessions

  /**
   * Nothing fails, no poll that would make the loader give up comes up empty, and the Pi's
   * deadline passes only when the installer has read every request and waits for the next.
   */
  predicate Calm(w: World, a: Action) {
    match a
    case HostTimeout => false
    case HostWriteFails(_) => false
    case PiPoll(n, expired) => n > 0 || (!expired && w.pi.length == 0)
    case PiDeadline => w.attached && w.host.stage.Locking? && w.hostRead == |w.pi.sent|
    case _ => true
  }

  function WritesLeft(stage: Host.Stage): nat {
    match stage
    case Locking => 3
    case PutHeader => 3
    case AwaitSuccess => 1
    case PutSuccess => 1
    case Done => 0
    case Failed => 0
    case _ => 2
  }

  /** What the installer has yet to read, counting twice what the Pi has yet to ask for the lock. */
  function ReadsLeft(w: World): int {
    var asked, lock := 4 * w.pi.requests, w.joined + FirstLock(w.joined);
    asked + 12 - w.hostRead
    + if !w.attached then 15
      else if w.host.stage.Locking? && asked < lock then 2 * (lock - asked) else 0
  }

  /** How many actions a calm session has left, at most. */
  function Work(c: Session, w: World): int {
    PiLeft(c, w) + (if Pi.Replies(w.pi.stage) < 2 then 1 else 0) + ReadsLeft(w) + WritesLeft(w.host.stage)
  }

  lemma WorkIsNatural(c: Session, w: World)
    requires Undisturbed(c, w)
    ensures Work(c, w) >= 0
  {
    WireIsPrefix(c, w.host.sent);
    TailLength(w.pi);
  }

  /** Nothing has gone wrong, and there is less to be done. */
  predicate Works(c: Session, w: World, x: World) {
    x.dropped == w.dropped && !x.pi.stage.Failed? && !x.host.stage.Failed? && Work(c, x) < Work(c, w)
  }

  lemma AttachingWorks(c: Session, w: World, a: Action)
    requires Undisturbed(c, w) && Enabled(c, w, a) && (a.Open? || a.MissByte?)
    ensures Works(c, w, Next(c, w, a))
  {
    FirstLockIsNear(w.hostRead);
  }

  lemma WritingWorks(c: Session, w: World)
    requires Undisturbed(c, w) && Enabled(c, w, HostWritten)
    ensures Works(c, w, Next(c, w, HostWritten))
  {
  }

  lemma HostByteWorks(c: Session, w: World)
    requires Undisturbed(c, w) && Enabled(c, w, HostByte)
    ensures Works(c, w, Next(c, w, HostByte))
  {
    HostByteHelps(c, w);
    HostReads(c, w, Next(c, w, HostByte));
  }

  lemma HostReads(c: Session, w: World, x: World)
    requires HostTook(c, w, x) && x.piRead == w.piRead && !x.host.stage.Failed?
    ensures Work(c, x) < Work(c, w)
  {
  }

  lemma PiByteWorks(c: Session, w: World)
    requires Undisturbed(c, w) && Enabled(c, w, PiByte)
    ensures Works(c, w, Next(c, w, PiByte))
  {
    if w.host.stage.Done? {
      DoneByteHelps(c, w);
    } else {
      PiByteHelps(c, w);
    }
    PiReads(c, w, Next(c, w, PiByte), Wire(c, w.host.sent)[w.piRead]);
  }

  lemma PiReads(c: Session, w: World, x: World, b: byte)
    requires x == w.(pi := Pi.Step(w.pi, Pi.Byte(b)), piRead := w.piRead + 1) && Pi.ReadsWord(w.pi.stage)
    requires !x.pi.stage.Failed?
    ensures Work(c, x) < Work(c, w)
  {
  }

  lemma PollWorks(c: Session, w: World, a: Action)
    requires Undisturbed(c, w) && Enabled(c, w, a) && a.PiPoll? && Calm(w, a)
    ensures Works(c, w, Next(c, w, a))
  {
    ReceivingIsLoading(c, w);
    var q := PollSettles(c, w, a);
    PiSettles(c, w, Next(c, w, a), q, a.n);
  }

  lemma PiSettles(c: Session, w: World, x: World, q: Pi.Pi, n: nat)
    requires x == w.(pi := Pi.Settle(q), piRead := w.piRead + n) && (Pi.Full(q) || n > 0)
    requires w.pi.stage.Receiving? && q.stage == w.pi.stage && q.requests == w.pi.requests
    requires Pi.Full(q) ==> Crc.Finalize(q.digest) == q.checksum
    ensures !x.pi.stage.Failed? && Work(c, x) < Work(c, w)
  {
  }

  /** An installer that has read every request and not locked needs at least one more. */
  ghost predicate NeedsRequest(w: World) {
    var lock := w.joined + FirstLock(w.joined);
    w.attached && w.host.stage.Locking? && w.pi.stage.AwaitInfo? && w.pi.got == 0
    && lock % 4 == 0 && 4 * w.pi.requests < lock
  }

  lemma WaitingNeedsRequest(c: Session, w: World)
    requires Inv(c, w) && w.attached && w.host.stage.Locking? && w.hostRead == |w.pi.sent|
    ensures NeedsRequest(w)
  {
    OnlyRequestsYet(c, w);
    FirstLockIsNear(w.joined);
  }

  /** The next request brings the lock closer by as much as it is long. */
  lemma RequestWorks(c: Session, w: World)
    requires NeedsRequest(w)
    ensures Works(c, w, Next(c, w, PiDeadline))
  {
    NextMultiple(w.joined + FirstLock(w.joined), w.pi.requests);
  }

  lemma DeadlineWorks(c: Session, w: World)
    requires Undisturbed(c, w) && Enabled(c, w, PiDeadline) && Calm(w, PiDeadline)
    ensures Works(c, w, Next(c, w, PiDeadline))
  {
    WaitingNeedsRequest(c, w);
    RequestWorks(c, w);
  }

  lemma NextMultiple(t: nat, k: nat)
    requires t % 4 == 0 && t > 4 * k
    ensures t >= 4 * k + 4
  {
  }

  lemma CalmActionWorks(c: Session, w: World, a: Action)
    requires Undisturbed(c, w) && Enabled(c, w, a) && Calm(w, a)
    ensures Works(c, w, Next(c, w, a))
  {
    match a
    case PiByte => PiByteWorks(c, w);
    case PiPoll(_, _) => PollWorks(c, w, a);
    case PiDeadline => DeadlineWorks(c, w);
    case HostByte => HostByteWorks(c, w);
    case HostWritten => WritingWorks(c, w);
    case Open => AttachingWorks(c, w, a);
    case MissByte => AttachingWorks(c, w, a);
  }

  /** Every calm action keeps the session undisturbed and leaves less to be done. */
  lemma CalmWorks(c: Session, w: World, a: Action)
    requires Undisturbed(c, w) && Enabled(c, w, a) && Calm(w, a)
    ensures Undisturbed(c, Next(c, w, a)) && 0 <= Work(c, Next(c, w, a)) < Work(c, w)
  {
    NextKeeps(c, w, a);
    CalmActionWorks(c, w, a);
    StillUndisturbed(c, w, Next(c, w, a));
    WorkIsNatural(c, Next(c, w, a));
  }

  ghost predicate CalmRun(c: Session, w: World, actions: seq<Action>)
    requires Possible(c, w, actions)
    decreases |actions|
  {
    actions != [] ==> Calm(w, actions[0]) && CalmRun(c, Next(c, w, actions[0]), actions[1..])
  }

  /** No calm action is possible any more. */
  ghost predicate AtRest(c: Session, w: World) {
    forall a :: Enabled(c, w, a) ==> !Calm(w, a)
  }

  lemma {:induction false} CalmRunWorks(c: Session, w: World, actions: seq<Action>)
    requires Undisturbed(c, w) && Possible(c, w, actions) && CalmRun(c, w, actions)
    ensures Undisturbed(c, End(c, w, actions))
    ensures |actions| + Work(c, End(c, w, actions)) <= Work(c, w)
    decreases |actions|
  {
    if actions != [] {
      CalmWorks(c, w, actions[0]);
      CalmRunWorks(c, Next(c, w, actions[0]), actions[1..]);
    }
  }

  /** Only success on both sides is the end. */
  lemma RestIsSuccess(c: Session, w: World)
    requires Undisturbed(c, w)
    ensures AtRest(c, w) <==> w.pi.stage.Booted? && w.host.stage.Done?
  {
    if !w.host.stage.Done? {
      CooperationIsPossible(c, w);
      CooperationIsCalm(c, w);
      assert Enabled(c, w, Cooperate(c, w)) && Calm(w, Cooperate(c, w));
    } else if !w.pi.stage.Booted? {
      DoneByteHelps(c, w);
      assert Enabled(c, w, PiByte) && Calm(w, PiByte);
    }
  }

  lemma CooperationIsCalm(c: Session, w: World)
    requires Undisturbed(c, w) && !w.host.stage.Done?
    ensures Calm(w, Cooperate(c, w))
  {
    if Cooperate(c, w).PiDeadline? {
      DeadlineOnlyWhileLocking(c, w);
    }
  }

  /**
   * Every calm run from an undisturbed state is bounded, and whichever way it goes, it
   * can go no further exactly when the Pi has booted and the installer is done.
   */
  lemma CalmRunsBoot(c: Session, w: World, actions: seq<Action>)
    requires Undisturbed(c, w) && Possible(c, w, actions) && CalmRun(c, w, actions)
    ensures |actions| <= Work(c, w)
    ensures var x := End(c, w, actions);
            AtRest(c, x) <==> x.pi.stage.Booted? && x.host.stage.Done?
  {
    CalmRunWorks(c, w, actions);
    WorkIsNatural(c, End(c, w, actions));
    RestIsSuccess(c, End(c, w, actions));
  }
}
