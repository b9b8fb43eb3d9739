/**
 * One boot session: the loader and the installer run side by side over two FIFO byte
 * channels.  Scheduling, delays, deadlines, failing writes and chunk sizes are arbitrary,
 * the installer may open its port late, and the program bytes may be altered or lost on
 * the way.
 */
module BootSession {
  import opened Bytes
  import opened BootShared
  import Crc
  import Pi = Bootloader
  import Host = Installer

  /** The program, what of it reaches the Pi, and the Pi's memory before the session. */
  datatype Session = Session(program: seq<byte>, delivered: seq<byte>, memory: Pi.Memory)

  /** The address arithmetic of the length check must not wrap around. */
  ghost predicate Admissible(c: Session) {
    |c.delivered| <= |c.program| && BASE + |c.program| < 0x1_0000_0000
  }

  /**
   * `piRead` and `hostRead` count the bytes that each side has taken off the line,
   * `joined` is where in the Pi's stream the installer came in, and `dropped` counts the
   * bytes that the Pi threw away with an unfinished word.
   */
  datatype World = World(pi: Pi.Pi, host: Host.Host, attached: bool,
                         piRead: nat, hostRead: nat, joined: nat, dropped: nat)

  datatype Action =
    | Open
    | MissByte
    | HostByte
    | HostTimeout
    | HostWritten
    | HostWriteFails(written: nat)
    | PiByte
    | PiDeadline
    | PiPoll(n: nat, expired: bool)

  function Min(a: nat, b: nat): nat {
    if a <= b then a else b
  }

  /** What the Pi can read of the bytes that the installer has written. */
  function Wire(c: Session, sent: seq<byte>): seq<byte> {
    var n := |c.program|;
    if |sent| <= 12 then sent
    else if |sent| <= 12 + n then sent[..12] + c.delivered[..Min(|sent| - 12, |c.delivered|)]
    else sent[..12] + c.delivered + sent[12 + n..]
  }

  function Initial(c: Session): World {
    World(Pi.Start(c.memory), Host.START, false, 0, 0, 0, 0)
  }

  function HostInput(w: World, a: Action): Host.Input
    requires a.HostByte? ==> w.hostRead < |w.pi.sent|
  {
    match a
    case HostByte => Host.Byte(w.pi.sent[w.hostRead])
    case HostWritten => Host.Written
    case HostWriteFails(k) => Host.WriteFails(k)
    case _ => Host.Timeout
  }

  predicate IsHostAction(a: Action) {
    a.HostByte? || a.HostTimeout? || a.HostWritten? || a.HostWriteFails?
  }

  predicate Enabled(c: Session, w: World, a: Action) {
    match a
    case Open => !w.attached
    case MissByte => !w.attached && w.hostRead < |w.pi.sent|
    case PiByte => Pi.ReadsWord(w.pi.stage) && w.piRead < |Wire(c, w.host.sent)|
    case PiDeadline => Pi.ReadsWord(w.pi.stage)
    case PiPoll(n, _) => w.pi.stage.Receiving? && n <= 8 && w.piRead + n <= |Wire(c, w.host.sent)|
    case _ =>
      w.attached && (a.HostByte? ==> w.hostRead < |w.pi.sent|)
      && !Host.Over(w.host.stage) && Host.Accepts(c.program, w.host, HostInput(w, a))
  }

  function PiInput(c: Session, w: World, a: Action): Pi.Input
    requires !IsHostAction(a) && Enabled(c, w, a)
  {
    match a
    case PiByte => Pi.Byte(Wire(c, w.host.sent)[w.piRead])
    case PiPoll(n, expired) => Pi.Poll(Wire(c, w.host.sent)[w.piRead..w.piRead + n], expired)
    case _ => Pi.Deadline
  }

  function Next(c: Session, w: World, a: Action): World
    requires Enabled(c, w, a)
  {
    match a
    case Open => w.(attached := true, joined := w.hostRead)
    case MissByte => w.(hostRead := w.hostRead + 1)
    case PiByte => w.(pi := Pi.Step(w.pi, PiInput(c, w, a)), piRead := w.piRead + 1)
    case PiDeadline =>
      w.(pi := Pi.Step(w.pi, PiInput(c, w, a)),
         dropped := w.dropped + if w.pi.stage.AwaitInfo? then w.pi.got else 0)
    case PiPoll(n, _) => w.(pi := Pi.Step(w.pi, PiInput(c, w, a)), piRead := w.piRead + n)
    case _ =>
      w.(host := Host.Step(c.program, w.host, HostInput(w, a)),
         hostRead := w.hostRead + if a.HostByte? then 1 else 0)
  }

  /** The actions can be taken one after the other, and lead from `w` to `End(c, w, actions)`. */
  ghost predicate Possible(c: Session, w: World, actions: seq<Action>)
    decreases |actions|
  {
    actions != [] ==> Enabled(c, w, actions[0]) && Possible(c, Next(c, w, actions[0]), actions[1..])
  }

  ghost function End(c: Session, w: World, actions: seq<Action>): World
    requires Possible(c, w, actions)
    decreases |actions|
  {
    if actions == [] then w else End(c, Next(c, w, actions[0]), actions[1..])
  }

  ghost predicate Reachable(c: Session, w: World) {
    exists actions :: Possible(c, Initial(c), actions) && End(c, Initial(c), actions) == w
  }

  // ------------------------------------------------------------ invariant

  /** Everything the installer writes in a session that goes well. */
  function HostScript(program: seq<byte>): (bytes: seq<byte>)
    ensures |bytes| == 16 + |program|
  {
    Host.Header(program) + program + ToLe(INSTALLER_SUCCESS)
  }

  /** What of that reaches the Pi. */
  function WireScript(c: Session): (bytes: seq<byte>)
    ensures |bytes| == 16 + |c.delivered|
  {
    Host.Header(c.program) + c.delivered + ToLe(INSTALLER_SUCCESS)
  }

  /** What the Pi writes after its requests. */
  function Tail(pi: Pi.Pi): seq<byte> {
    (if Pi.Replies(pi.stage) >= 1 then ToLe(PI_GET_CODE) + ToLe(pi.checksum) else [])
    + (if Pi.Replies(pi.stage) >= 2 then ToLe(PI_SUCCESS) else [])
    + (if pi.stage.Failed? then ToLe(PI_ERROR) else [])
  }

  function Said(pi: Pi.Pi): seq<byte> {
    Requests(pi.requests) + Tail(pi)
  }

  ghost predicate PiSpeaks(pi: Pi.Pi) {
    pi.sent == Said(pi) && Pi.Replies(pi.stage) <= 2
  }

  ghost predicate HostSpeaks(c: Session, w: World) {
    var n, sent := |c.program|, w.host.sent;
    |sent| <= 16 + n && sent == HostScript(c.program)[..|sent|]
    && match w.host.stage
       case Locking => |sent| == 0
       case PutHeader => |sent| == 0
       case AwaitSuccess => |sent| == 12 + n
       case PutSuccess => |sent| == 12 + n
       case Done => |sent| == 16 + n
       case Failed => |sent| < 16 + n
       case _ => |sent| == 12
  }

  /** Neither side speaks before the other has given it cause to. */
  ghost predicate Causal(c: Session, w: World) {
    && (|w.host.sent| > 12 ==> Pi.Replies(w.pi.stage) >= 1)
    && (|w.host.sent| > 12 + |c.program| ==> Pi.Replies(w.pi.stage) >= 2)
  }

  /** The word being read consists of the last `got` bytes off the line. */
  ghost predicate Window(window: word, got: nat, line: seq<byte>, read: nat) {
    got < 4 && got <= read <= |line| && window == Shown(line[read - got..read])
  }

  /** Memory with the first `m` delivered bytes from `BASE` on. */
  function Image(c: Session, m: nat): Pi.Memory
    requires m <= |c.delivered|
  {
    Pi.StoreAll(c.memory, BASE, c.delivered[..m])
  }

  /** The first `m` delivered bytes are in place, and nothing else has been written. */
  ghost predicate Holds(c: Session, memory: Pi.Memory, m: nat) {
    m <= |c.delivered| && memory == Image(c, m)
    && (m > 0 ==> BASE + |c.program| < Pi.BOOTLOADER_LOCATION)
  }

  ghost predicate Stored(c: Session, memory: Pi.Memory) {
    exists m: nat :: Holds(c, memory, m)
  }

  ghost predicate Verified(c: Session, w: World) {
    |c.delivered| == |c.program| && Crc.Checksum(c.delivered) == Crc.Checksum(c.program)
    && BASE + |c.program| < Pi.BOOTLOADER_LOCATION && Holds(c, w.pi.memory, |c.program|)
  }

  ghost predicate PiListens(c: Session, w: World) {
    var line, pi, n := WireScript(c), w.pi, |c.program|;
    w.piRead <= |Wire(c, w.host.sent)| && (w.dropped > 0 ==> Pi.Replies(pi.stage) == 0)
    && (w.piRead < 4 ==> pi.stage.AwaitInfo?)
    && (Pi.ReadsWord(pi.stage) ==> Window(pi.window, pi.got, line, w.piRead))
    && match pi.stage
       case AwaitInfo => w.piRead == w.dropped + pi.got && Holds(c, pi.memory, 0)
       case AwaitLength => w.piRead == w.dropped + 4 + pi.got && Holds(c, pi.memory, 0)
       case AwaitChecksum => w.piRead == w.dropped + 8 + pi.got && Holds(c, pi.memory, 0)
                             && (w.dropped == 0 ==> pi.length == n && BASE + n < Pi.BOOTLOADER_LOCATION)
       case Receiving => InLoop(c, w)
       case AwaitDone => w.piRead == 12 + n + pi.got && Verified(c, w) && pi.checksum == Crc.Checksum(c.program)
       case Booted => w.piRead == 16 + n && Verified(c, w) && pi.checksum == Crc.Checksum(c.program)
       case Failed(r) => Stored(c, pi.memory)
                         && (r == 0 ==> Holds(c, pi.memory, 0))
                         && (r >= 1 ==> pi.checksum == Crc.Checksum(c.program))
                         && (r >= 2 ==> Verified(c, w))
  }

  /** How many bytes the receive loop has dealt with. */
  function Taken(pi: Pi.Pi): int {
    pi.index - BASE
  }

  /** Those are the first of the delivered ones. */
  ghost predicate Progress(c: Session, pi: Pi.Pi) {
    0 <= Taken(pi) <= |c.delivered|
    && pi.length == |c.program| && BASE + pi.length < Pi.BOOTLOADER_LOCATION
    && pi.checksum == Crc.Checksum(c.program)
    && Holds(c, pi.memory, Taken(pi))
    && pi.digest == Crc.Digest(c.delivered[..Taken(pi)])
  }

  ghost predicate InLoop(c: Session, w: World) {
    Progress(c, w.pi) && w.piRead == 12 + Taken(w.pi)
    && (Taken(w.pi) < w.pi.length || Taken(w.pi) == 0)
  }

  ghost predicate HostListens(c: Session, w: World) {
    var sent, r, h := w.pi.sent, 4 * w.pi.requests, w.host;
    w.hostRead <= |sent| && (!w.attached ==> h == Host.START)
    && match h.stage
       case Locking => w.attached ==>
                         w.joined <= w.hostRead < w.joined + FirstLock(w.joined)
                         && h.window == Shown(sent[w.joined..w.hostRead])
       case PutHeader => w.hostRead == w.joined + FirstLock(w.joined)
       case Skipping => w.hostRead <= r
       case Matching => h.got >= 1 && w.hostRead == r + h.got && Window(h.window, h.got, sent, w.hostRead)
       case Echo => w.hostRead == r + 4 + h.got && Window(h.window, h.got, sent, w.hostRead)
                    && Pi.Replies(w.pi.stage) >= 1
       case PutProgram => w.hostRead == r + 8 && Pi.Replies(w.pi.stage) >= 1
       case AwaitSuccess => w.hostRead == r + 8 + h.got && Window(h.window, h.got, sent, w.hostRead)
                            && Pi.Replies(w.pi.stage) >= 1
       case PutSuccess => w.hostRead == r + 12 && Pi.Replies(w.pi.stage) >= 2
       case _ => true
  }

  ghost predicate Inv(c: Session, w: World) {
    PiSpeaks(w.pi) && HostSpeaks(c, w) && Causal(c, w) && PiListens(c, w) && HostListens(c, w)
  }
}
