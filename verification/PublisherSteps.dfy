/**
 The publisher as a step system: any number of writers, flushes and a disconnect beside one worker.
 A step is one access to the queue or to a shared counter, or one call of a subclass hook.
 */
module PublisherSteps {
  import Segments

  datatype Key = Key(segments: Segments.Key)

  datatype Item = KeyItem(key: Key) | Sentinel(id: nat) | StopMarker

  /** One call of `notify`: the keys it was given, how many it queued, and whether it gave up on the rest. */
  datatype Writer = Writer(keys: seq<Key>, placed: nat, sawFull: bool, gaveUp: bool)

  /** A key the worker is done with, and whether it went out in a successful send. */
  datatype Entry = Entry(key: Key, sent: bool)

  /** What the worker does once its batch is published: set a sentinel, exit, or wait for more. */
  datatype After = Signal(id: nat) | Exit | Rest

  /** Where the worker stands. `flags` tell which keys of the chunk of `m` keys could be encoded. */
  datatype Phase =
    | Idle
    | Draining
    | Choosing(next: After)
    | Preparing(next: After, m: nat, flags: seq<bool>)
    | Sending(next: After, m: nat, flags: seq<bool>)
    | Signalling(id: nat)
    | Exited

  /**
   The first fields are the program's. `done` keys of the batch belong to settled chunks; `left` keys
   were taken from the queue of an exited worker and are still to be counted. The last fields are
   history: every key notified, refused by a writer, put on the queue, and settled, in order; the
   keys of all successful sends; and how many keys had been put when a sentinel was.
   */
  datatype State = State(
    maxsize: nat, maxCall: nat,
    queue: seq<Item>, writers: seq<Writer>,
    phase: Phase, batch: seq<Key>, done: nat, left: nat,
    dropped: nat, lastError: bool, stalled: bool, stopping: bool, drainFailed: bool, signalled: set<nat>,
    notified: nat, refused: nat, entered: seq<Key>, log: seq<Entry>, sent: seq<Key>, marks: map<nat, nat>)

  datatype Step =
    | Begin(keys: seq<Key>)       // notify is called
    | Offline(n: nat)           // notify is called while not connected
    | Put(w: nat)               // a writer queues its next key
    | SeesFull(w: nat)          // a writer finds the queue full
    | GiveUp(w: nat)            // and counts the keys it could not queue
    | PutSentinel(id: nat)      // flush queues its sentinel
    | RaiseError                // flush raises, and clears, the last error
    | SetStop                   // disconnect sets the stop event
    | PutMarker                 // and queues the stop marker
    | Take                      // the worker takes an item
    | SeesEmpty                 // and finds no more for now
    | Choose                    // it starts a chunk, or is done with its batch
    | Encode(ok: bool)          // a key of the chunk is encoded, or counted as unroutable
    | PrepareRaises             // `_prepare_chunk` raises an `Exception`
    | Prepared                  // `_prepare_chunk` returns
    | SendOk                    // `_send_chunk` returns
    | SendFails                 // `_send_chunk` raised for the last time
    | Crash                     // a hook raises what is no `Exception`
    | SetSentinel               // the worker sets a sentinel
    | ExitIdle                  // it exits on an empty queue after stop
    | PopLeftover               // disconnect takes an item the worker left
    | RecordLeftovers           // and counts the keys among them

  // ---------------------------------------------------------------------------
  // Queues, chunks, logs
  // ---------------------------------------------------------------------------

  /** The keys of a queue, in order. */
  function Keys(queue: seq<Item>): seq<Key> {
    if queue == [] then []
    else (if queue[0].KeyItem? then [queue[0].key] else []) + Keys(queue[1..])
  }

  /** The keys of a chunk that could be encoded. */
  function Picked(chunk: seq<Key>, flags: seq<bool>): seq<Key>
    requires |flags| <= |chunk|
  {
    if flags == [] then []
    else
      var n := |flags| - 1;
      Picked(chunk, flags[..n]) + (if flags[n] then [chunk[n]] else [])
  }

  function Skips(flags: seq<bool>): nat {
    if flags == [] then 0
    else
      var n := |flags| - 1;
      Skips(flags[..n]) + (if flags[n] then 0 else 1)
  }

  function Fates(chunk: seq<Key>, flags: seq<bool>): (entries: seq<Entry>)
    requires |flags| == |chunk|
    ensures |entries| == |chunk| && forall i :: 0 <= i < |chunk| ==> entries[i] == Entry(chunk[i], flags[i])
  {
    seq(|chunk|, i requires 0 <= i < |chunk| => Entry(chunk[i], flags[i]))
  }

  function Never(n: nat): (flags: seq<bool>)
    ensures |flags| == n && forall i :: 0 <= i < n ==> !flags[i]
  {
    seq(n, _ => false)
  }

  /** The entries of keys that were all dropped. */
  function Lost(chunk: seq<Key>): (entries: seq<Entry>)
    ensures |entries| == |chunk| && forall i :: 0 <= i < |chunk| ==> entries[i] == Entry(chunk[i], false)
  {
    Fates(chunk, Never(|chunk|))
  }

  function SentOf(log: seq<Entry>): seq<Key> {
    if log == [] then []
    else
      var n := |log| - 1;
      SentOf(log[..n]) + (if log[n].sent then [log[n].key] else [])
  }

  function Drops(log: seq<Entry>): nat {
    if log == [] then 0
    else
      var n := |log| - 1;
      Drops(log[..n]) + (if log[n].sent then 0 else 1)
  }

  /** How many keys a writer has yet to queue. */
  function Remaining(w: Writer): nat {
    if w.gaveUp || w.placed > |w.keys| then 0 else |w.keys| - w.placed
  }

  /** How many keys all writers together have yet to queue. */
  function Held(writers: seq<Writer>): nat {
    if writers == [] then 0
    else
      var n := |writers| - 1;
      Held(writers[..n]) + Remaining(writers[n])
  }

  // ---------------------------------------------------------------------------
  // The steps
  // ---------------------------------------------------------------------------

  predicate HasRoom(s: State) {
    s.maxsize == 0 || |s.queue| < s.maxsize
  }

  /** The keys of the batch that are not settled. */
  function Unsettled(s: State): (keys: seq<Key>)
    requires s.done <= |s.batch|
    ensures |keys| == |s.batch| - s.done
  {
    s.batch[s.done..]
  }

  predicate InChunk(s: State) {
    && (s.phase.Preparing? || s.phase.Sending?)
    && s.done <= |s.batch| && s.phase.m <= |s.batch| - s.done && |s.phase.flags| <= s.phase.m
  }

  function Chunk(s: State): (keys: seq<Key>)
    requires InChunk(s)
    ensures |keys| == s.phase.m
  {
    s.batch[s.done..s.done + s.phase.m]
  }

  function ChunkSize(s: State): nat
    requires s.done <= |s.batch|
  {
    var n := |s.batch| - s.done;
    if 0 < s.maxCall < n then s.maxCall else n
  }

  predicate Busy(s: State, w: nat) {
    w < |s.writers| && !s.writers[w].gaveUp && s.writers[w].placed < |s.writers[w].keys|
  }

  predicate Enabled(s: State, step: Step) {
    match step
    case Begin(_) => true
    case Offline(_) => true
    case Put(w) => Busy(s, w) && HasRoom(s)
    case SeesFull(w) => Busy(s, w) && !HasRoom(s)
    case GiveUp(w) => Busy(s, w) && s.writers[w].sawFull
    case PutSentinel(id) => HasRoom(s) && id !in s.marks
    case RaiseError => true
    case SetStop => true
    case PutMarker => HasRoom(s) && s.stopping
    case Take => (s.phase.Idle? || s.phase.Draining?) && s.queue != []
    case SeesEmpty => s.phase.Draining? && s.queue == []
    case Choose => s.phase.Choosing? && s.done <= |s.batch|
    case Encode(_) => s.phase.Preparing? && InChunk(s) && |s.phase.flags| < s.phase.m
    case PrepareRaises => s.phase.Preparing? && InChunk(s)
    case Prepared => s.phase.Preparing? && InChunk(s) && |s.phase.flags| == s.phase.m
    case SendOk => s.phase.Sending? && InChunk(s) && |s.phase.flags| == s.phase.m
    case SendFails => s.phase.Sending? && InChunk(s) && |s.phase.flags| == s.phase.m
    case Crash => (s.phase.Preparing? || s.phase.Sending?) && InChunk(s)
    case SetSentinel => s.phase.Signalling?
    case ExitIdle => s.phase.Idle? && s.stopping
    case PopLeftover => s.phase.Exited? && s.queue != []
    case RecordLeftovers => s.phase.Exited?
  }

  function Counted(s: State, n: nat): State {
    s.(dropped := s.dropped + n, lastError := true)
  }

  /** The chunk is settled with the fates given, and the next one is due. */
  function Settled(s: State, entries: seq<Entry>): State
    requires InChunk(s)
  {
    s.(phase := Choosing(s.phase.next), done := s.done + |entries|, log := s.log + entries)
  }

  function Taken(s: State): State
    requires s.queue != []
  {
    var item, t := s.queue[0], s.(queue := s.queue[1..]);
    match item
    case KeyItem(k) => t.(phase := Draining, batch := s.batch + [k])
    case Sentinel(id) => t.(phase := Choosing(Signal(id)))
    case StopMarker => t.(phase := Choosing(Exit))
  }

  function Following(next: After): Phase {
    match next
    case Signal(id) => Signalling(id)
    case Exit => Exited
    case Rest => Idle
  }

  function Chosen(s: State): State
    requires s.phase.Choosing? && s.done <= |s.batch|
  {
    if s.done < |s.batch| then s.(phase := Preparing(s.phase.next, ChunkSize(s), []))
    else
      s.(batch := [], done := 0, phase := Following(s.phase.next))
  }

  /** A prepared chunk: nothing to send, nothing sent any more after a failed drain, or sent. */
  function Ready(s: State): State
    requires s.phase.Preparing? && InChunk(s) && |s.phase.flags| == s.phase.m
  {
    var n := |Picked(Chunk(s), s.phase.flags)|;
    if n == 0 then Settled(s, Lost(Chunk(s)))
    else if s.drainFailed && s.stopping then Settled(Counted(s, n), Lost(Chunk(s)))
    else s.(phase := Sending(s.phase.next, s.phase.m, s.phase.flags))
  }

  function Popped(s: State): State
    requires s.queue != []
  {
    var item, t := s.queue[0], s.(queue := s.queue[1..]);
    match item
    case KeyItem(k) => t.(left := s.left + 1, log := s.log + [Entry(k, false)])
    case Sentinel(id) => t.(signalled := s.signalled + {id})
    case StopMarker => t
  }

  function Do(s: State, step: Step): State
    requires Enabled(s, step)
  {
    match step
    case Begin(keys) => s.(writers := s.writers + [Writer(keys, 0, false, false)], notified := s.notified + |keys|)
    case Offline(n) =>
      if n == 0 then s else Counted(s, n).(notified := s.notified + n, refused := s.refused + n)
    case Put(w) =>
      var writer := s.writers[w];
      var k := writer.keys[writer.placed];
      s.(queue := s.queue + [KeyItem(k)], entered := s.entered + [k],
         writers := s.writers[w := writer.(placed := writer.placed + 1, sawFull := false)])
    case SeesFull(w) => s.(writers := s.writers[w := s.writers[w].(sawFull := true)])
    case GiveUp(w) =>
      var n := |s.writers[w].keys| - s.writers[w].placed;
      Counted(s, n).(stalled := true, refused := s.refused + n,
          writers := s.writers[w := s.writers[w].(gaveUp := true)])
    case PutSentinel(id) => s.(queue := s.queue + [Sentinel(id)], marks := s.marks[id := |s.entered|])
    case RaiseError => s.(lastError := false)
    case SetStop => s.(stopping := true)
    case PutMarker => s.(queue := s.queue + [StopMarker])
    case Take => Taken(s)
    case SeesEmpty => s.(phase := Choosing(Rest))
    case Choose => Chosen(s)
    case Encode(ok) =>
      var t := s.(phase := Preparing(s.phase.next, s.phase.m, s.phase.flags + [ok]));
      if ok then t else Counted(t, 1)
    case PrepareRaises => Settled(Counted(s, s.phase.m), Lost(Chunk(s)))
    case Prepared => Ready(s)
    case SendOk =>
      Settled(s, Fates(Chunk(s), s.phase.flags)).(sent := s.sent + Picked(Chunk(s), s.phase.flags), stalled := false)
    case SendFails =>
      Settled(Counted(s, |Picked(Chunk(s), s.phase.flags)|), Lost(Chunk(s)))
        .(drainFailed := s.drainFailed || s.stopping)
    case Crash => Settled(Counted(s, |s.batch|), Lost(Unsettled(s)))
    case SetSentinel => s.(phase := Draining, signalled := s.signalled + {s.phase.id})
    case ExitIdle => s.(phase := Exited)
    case PopLeftover => Popped(s)
    case RecordLeftovers => if s.left == 0 then s else Counted(s, s.left).(left := 0)
  }

  predicate Init(s: State) {
    && s.queue == [] && s.writers == [] && s.phase == Idle && s.batch == [] && s.done == 0 && s.left == 0
    && s.dropped == 0 && !s.lastError && !s.stalled && !s.stopping && !s.drainFailed && s.signalled == {}
    && s.notified == 0 && s.refused == 0 && s.entered == [] && s.log == [] && s.sent == [] && s.marks == map[]
  }

  ghost predicate IsRun(states: seq<State>, steps: seq<Step>) {
    && |states| == |steps| + 1
    && forall i :: 0 <= i < |steps| ==> Enabled(states[i], steps[i]) && states[i + 1] == Do(states[i], steps[i])
  }
}
