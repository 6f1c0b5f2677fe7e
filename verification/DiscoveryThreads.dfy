/**
 The threads decoding ahead and the walk: what they share, and that in every interleaving of
 their moves all that is done is true, each entry is decoded at most once, and what is done
 stays.
 */
module DiscoveryThreads {
  import opened Pcode
  import opened DiscoveryWalk
  import opened DiscoveryAhead

  /** What a thread is at: waiting, decoding from an entry, or with the entries it reached in
      that code left to offer. */
  datatype Job = Waiting | Decoding(entry: nat) | Offering(reached: seq<(nat, bool)>)

  /** The entries taken to decode from, those the walk is on, those to decode, what each thread
      is at, the code done by entry, each thread's list of it, and whether the walk is done. */
  datatype Shared = Shared(claims: set<nat>, walking: set<nat>, queue: seq<nat>, jobs: seq<Job>, done: map<nat, Spec>, lists: seq<seq<Spec>>, stop: bool)

  /** The functions listed when the threads started, and those of them with a body. */
  datatype View = View(listed: set<nat>, hasBody: set<nat>)

  /** A move: thread `id` takes an entry, hands over what it decoded from it, offers the
      entries reached; the walk starts on a function, finds calls, is done. */
  datatype Move =
    | Take(id: nat)
    | Publish(id: nat, looks: Looks)
    | Offer(id: nat)
    | WalkOn(entry: nat)
    | WalkFinds(calls: seq<nat>)
    | Release

  ghost predicate MovesInLimit(moves: seq<Move>) {
    forall i | 0 <= i < |moves| :: MoveInLimit(moves[i])
  }

  ghost predicate MoveInLimit(m: Move) {
    m.WalkFinds? ==> InLimit(m.calls)
  }

  // ---- what holds throughout

  /** Entries queued, being decoded and done are apart, and all of them taken. */
  ghost predicate Once(s: Shared) {
    && (forall i, j | 0 <= i < j < |s.queue| :: s.queue[i] != s.queue[j])
    && (forall i | 0 <= i < |s.queue| :: Free(s, s.queue[i]))
    && (forall i | 0 <= i < |s.jobs| :: JobOk(s, s.jobs[i]))
    && (forall i, j | 0 <= i < j < |s.jobs| && s.jobs[i].Decoding? && s.jobs[j].Decoding? :: s.jobs[i].entry != s.jobs[j].entry)
    && s.done.Keys <= s.claims
  }

  /** Taken and not decoded yet. */
  ghost predicate Free(s: Shared, e: nat) {
    e in s.claims && e !in s.done && e < LIMIT
  }

  ghost predicate JobOk(s: Shared, job: Job) {
    && (job.Decoding? ==> Free(s, job.entry) && job.entry !in s.queue)
    && (job.Offering? ==> ReachedInLimit(job.reached))
  }

  /** All that is done is true and in its thread's list, and no entry is decoded twice. */
  ghost predicate Sound(decode: Decoder, s: Shared) {
    Once(s) && |s.jobs| == |s.lists| && Published(decode, s.done, s.lists) && ListsTrue(decode, s.lists)
  }

  /** What was done is done still. */
  ghost predicate Extends(s: Shared, t: Shared) {
    Grown(s.lists, t.lists) && forall e | e in s.done :: e in t.done && t.done[e] == s.done[e]
  }

  // ---- the moves

  /** `e` taken, if it was not. */
  function ClaimOne(s: Shared, e: nat): Shared {
    if e in s.claims then s else s.(claims := s.claims + {e}, queue := s.queue + [e])
  }

  lemma ClaimOneKeeps(s: Shared, e: nat)
    requires Once(s) && e < LIMIT
    ensures Once(ClaimOne(s, e))
  {
    var t := ClaimOne(s, e);
    if e !in s.claims {
      forall i | 0 <= i < |t.queue| ensures Free(t, t.queue[i]) {
        if i < |s.queue| { assert Free(s, s.queue[i]); }
      }
      forall i, j | 0 <= i < j < |t.queue| ensures t.queue[i] != t.queue[j] {
        assert Free(s, s.queue[i]);
      }
      forall i | 0 <= i < |t.jobs| ensures JobOk(t, t.jobs[i]) {
        assert JobOk(s, s.jobs[i]);
      }
    }
  }

  /** The entries a thread reached: a function with a body is not entered by a call. */
  function ClaimReached(view: View, s: Shared, reached: seq<(nat, bool)>): Shared {
    if reached == [] then s
    else
      var r, last := ClaimReached(view, s, reached[..|reached| - 1]), reached[|reached| - 1];
      if last.1 && last.0 in view.hasBody then r else ClaimOne(r, last.0)
  }

  lemma {:induction false} ClaimReachedKeeps(view: View, s: Shared, reached: seq<(nat, bool)>)
    requires Once(s) && ReachedInLimit(reached)
    ensures var t := ClaimReached(view, s, reached);
      Once(t) && t == s.(claims := t.claims, queue := t.queue)
  {
    if reached != [] {
      ClaimReachedKeeps(view, s, reached[..|reached| - 1]);
      ClaimOneKeeps(ClaimReached(view, s, reached[..|reached| - 1]), reached[|reached| - 1].0);
    }
  }

  /** The calls the walk found. */
  function AsCalls(calls: seq<nat>): seq<(nat, bool)> {
    seq(|calls|, i requires 0 <= i < |calls| => (calls[i], true))
  }

  /** The state the threads start from: the entries `seeds` for them to decode from. */
  function Started(view: View, threads: nat, seeds: seq<nat>): Shared {
    ClaimReached(view, Shared({}, {}, [], seq(threads, _ => Waiting), map[], seq(threads, _ => []), false), AsCalls(seeds))
  }

  lemma StartedSound(decode: Decoder, view: View, threads: nat, seeds: seq<nat>)
    requires InLimit(seeds)
    ensures Sound(decode, Started(view, threads, seeds))
  {
    ClaimReachedKeeps(view, Shared({}, {}, [], seq(threads, _ => Waiting), map[], seq(threads, _ => []), false), AsCalls(seeds));
  }

  /** The entry at the head of the queue left: not decoded, but taken for good. */
  lemma PoppedOnce(s: Shared)
    requires Once(s) && s.queue != []
    ensures Once(s.(queue := s.queue[1..])) && Free(s, s.queue[0]) && s.queue[0] !in s.queue[1..]
    ensures forall i | 0 <= i < |s.jobs| && s.jobs[i].Decoding? :: s.jobs[i].entry != s.queue[0]
  {
    var t := s.(queue := s.queue[1..]);
    forall i | 0 <= i < |t.queue| ensures Free(t, t.queue[i]) {
      assert Free(s, s.queue[i + 1]);
    }
    forall i | 0 <= i < |t.jobs| ensures JobOk(t, t.jobs[i]) {
      assert JobOk(s, s.jobs[i]);
    }
    forall i | 0 <= i < |s.jobs| && s.jobs[i].Decoding? ensures s.jobs[i].entry != s.queue[0] {
      assert JobOk(s, s.jobs[i]);
    }
    assert Free(s, s.queue[0]);
  }

  /** The queue from the first entry the walk is not on itself. */
  function Unwalked(queue: seq<nat>, walking: set<nat>): seq<nat> {
    if queue == [] || queue[0] !in walking then queue else Unwalked(queue[1..], walking)
  }

  /** What taking an entry leaves. */
  ghost function Taken(s: Shared, id: nat): Shared {
    if id >= |s.jobs| || s.jobs[id] != Waiting || s.stop then s
    else
      var queue := Unwalked(s.queue, s.walking);
      if queue == [] then s.(queue := []) else s.(queue := queue[1..], jobs := s.jobs[id := Decoding(queue[0])])
  }

  /** A thread waiting takes the next entry, those the walk is on dropped. */
  method TakeEntry(ghost decode: Decoder, s: Shared, id: nat) returns (t: Shared)
    requires Sound(decode, s)
    ensures Sound(decode, t) && Extends(s, t) && t == Taken(s, id)
  {
    t := s;
    if id < |s.jobs| && s.jobs[id] == Waiting && !s.stop {
      while t.queue != [] && t.queue[0] in s.walking
        invariant Once(t) && t == s.(queue := t.queue) && Unwalked(t.queue, s.walking) == Unwalked(s.queue, s.walking)
        decreases |t.queue|
      {
        PoppedOnce(t);
        t := t.(queue := t.queue[1..]);
      }
      if t.queue != [] {
        PoppedOnce(t);
        var entry := t.queue[0];
        var popped := t.(queue := t.queue[1..]);
        t := popped.(jobs := popped.jobs[id := Decoding(entry)]);
        JobSet(popped, id, Decoding(entry));
      }
    }
  }

  lemma JobSet(s: Shared, id: nat, job: Job)
    requires Once(s) && id < |s.jobs| && JobOk(s, job)
    requires job.Decoding? ==> forall i | 0 <= i < |s.jobs| && i != id && s.jobs[i].Decoding? :: s.jobs[i].entry != job.entry
    ensures Once(s.(jobs := s.jobs[id := job]))
  {
    var t := s.(jobs := s.jobs[id := job]);
    forall i | 0 <= i < |t.queue| ensures Free(t, t.queue[i]) {
      assert Free(s, s.queue[i]);
    }
    forall i | 0 <= i < |t.jobs| ensures JobOk(t, t.jobs[i]) {
      assert JobOk(s, if i == id then job else s.jobs[i]);
    }
  }

  /** `t` is `s` with the code thread `id` decoded from its entry done, as the next of its
      list. */
  ghost predicate Handed(s: Shared, id: nat, t: Shared) {
    if id >= |s.jobs| || !s.jobs[id].Decoding? || id >= |s.lists| then t == s
    else
      var entry := s.jobs[id].entry;
      && entry in t.done && id < |t.jobs| && t.jobs[id].Offering?
      && var spec := t.done[entry];
      && spec.owner == id && spec.index == |s.lists[id]|
      && t == s.(jobs := s.jobs[id := t.jobs[id]], done := s.done[entry := spec], lists := s.lists[id := s.lists[id] + [spec]])
  }

  /** A thread decodes the code its entry reaches, seeing anything of the others meanwhile, and
      hands it over. */
  method HandOver(decode: Decoder, view: View, s: Shared, id: nat, looks: Looks) returns (t: Shared)
    requires DecoderOk(decode) && Sound(decode, s)
    ensures Sound(decode, t) && Extends(s, t) && Handed(s, id, t)
  {
    t := s;
    if id < |s.jobs| && s.jobs[id].Decoding? {
      var entry := s.jobs[id].entry;
      assert JobOk(s, s.jobs[id]);
      var spec, reached := SpeculateOne(decode, entry, view.listed, looks);
      spec := spec.(owner := id, index := |s.lists[id]|);
      t := s.(jobs := s.jobs[id := Offering(reached)], done := s.done[entry := spec], lists := s.lists[id := s.lists[id] + [spec]]);
      HandedOver(decode, s, id, spec, reached);
    }
  }

  lemma HandedOver(decode: Decoder, s: Shared, id: nat, spec: Spec, reached: seq<(nat, bool)>)
    requires Sound(decode, s) && id < |s.jobs| && s.jobs[id].Decoding? && Truthful(decode, spec, s.jobs[id].entry)
    requires spec.owner == id && spec.index == |s.lists[id]| && ReachedInLimit(reached)
    ensures var entry := s.jobs[id].entry;
      var t := s.(jobs := s.jobs[id := Offering(reached)], done := s.done[entry := spec], lists := s.lists[id := s.lists[id] + [spec]]);
      Sound(decode, t) && Extends(s, t)
  {
    var entry := s.jobs[id].entry;
    var done, lists := s.done[entry := spec], s.lists[id := s.lists[id] + [spec]];
    assert JobOk(s, s.jobs[id]);
    GrownPublished(decode, s.done, s.lists, lists);
    forall e | e in done ensures PublishedAt(decode, done, lists, e) {
      if e != entry { assert PublishedAt(decode, s.done, lists, e); }
    }
    DecodedOnce(s, id, reached, spec, lists);
  }

  lemma DecodedOnce(s: Shared, id: nat, reached: seq<(nat, bool)>, spec: Spec, lists: seq<seq<Spec>>)
    requires Once(s) && id < |s.jobs| && s.jobs[id].Decoding? && ReachedInLimit(reached)
    ensures Once(s.(jobs := s.jobs[id := Offering(reached)], done := s.done[s.jobs[id].entry := spec], lists := lists))
  {
    var t := s.(jobs := s.jobs[id := Offering(reached)], done := s.done[s.jobs[id].entry := spec], lists := lists);
    assert JobOk(s, s.jobs[id]);
    forall i | 0 <= i < |t.queue| ensures Free(t, t.queue[i]) {
      assert Free(s, s.queue[i]);
    }
    forall i | 0 <= i < |t.jobs| ensures JobOk(t, t.jobs[i]) {
      assert JobOk(s, s.jobs[i]);
    }
  }

  function Offered(view: View, s: Shared, id: nat): Shared {
    if id >= |s.jobs| || !s.jobs[id].Offering? then s
    else ClaimReached(view, s, s.jobs[id].reached).(jobs := s.jobs[id := Waiting])
  }

  /** A thread takes the entries it reached that nobody has taken, and waits for its next. */
  lemma OfferKeeps(decode: Decoder, view: View, s: Shared, id: nat)
    requires Sound(decode, s)
    ensures Sound(decode, Offered(view, s, id)) && Extends(s, Offered(view, s, id))
  {
    if id < |s.jobs| && s.jobs[id].Offering? {
      assert JobOk(s, s.jobs[id]);
      ClaimReachedKeeps(view, s, s.jobs[id].reached);
      JobSet(ClaimReached(view, s, s.jobs[id].reached), id, Waiting);
    }
  }

  lemma SameOnce(s: Shared, t: Shared)
    requires Once(s) && t == s.(walking := t.walking, stop := t.stop)
    ensures Once(t)
  {
    forall i | 0 <= i < |t.queue| ensures Free(t, t.queue[i]) {
      assert Free(s, s.queue[i]);
    }
    forall i | 0 <= i < |t.jobs| ensures JobOk(t, t.jobs[i]) {
      assert JobOk(s, s.jobs[i]);
    }
  }

  /** `t` is what the move `m` makes of `s`. */
  ghost predicate Moved(view: View, s: Shared, m: Move, t: Shared) {
    match m
    case Take(id) => t == Taken(s, id)
    case Publish(id, looks) => Handed(s, id, t)
    case Offer(id) => t == Offered(view, s, id)
    case WalkOn(entry) => t == s.(walking := s.walking + {entry})
    case WalkFinds(calls) => t == ClaimReached(view, s, AsCalls(calls))
    case Release => t == s.(stop := true)
  }

  method MakeMove(decode: Decoder, view: View, s: Shared, m: Move) returns (t: Shared)
    requires DecoderOk(decode) && Sound(decode, s) && MoveInLimit(m)
    ensures Sound(decode, t) && Extends(s, t) && Moved(view, s, m, t)
  {
    match m
    case Take(id) => t := TakeEntry(decode, s, id);
    case Publish(id, looks) => t := HandOver(decode, view, s, id, looks);
    case Offer(id) =>
      t := Offered(view, s, id);
      OfferKeeps(decode, view, s, id);
    case WalkOn(entry) =>
      t := s.(walking := s.walking + {entry});
      SameOnce(s, t);
    case WalkFinds(calls) =>
      t := ClaimReached(view, s, AsCalls(calls));
      ClaimReachedKeeps(view, s, AsCalls(calls));
    case Release =>
      t := s.(stop := true);
      SameOnce(s, t);
  }

  // ---- every interleaving

  lemma ExtendsOn(s: Shared, t: Shared, u: Shared)
    requires Extends(s, t) && Extends(t, u)
    ensures Extends(s, u)
  {
  }

  ghost predicate SoundStates(decode: Decoder, states: seq<Shared>) {
    forall n | 0 <= n < |states| :: Sound(decode, states[n])
  }

  ghost predicate OnlyGrow(states: seq<Shared>) {
    forall n, m | 0 <= n <= m < |states| :: Extends(states[n], states[m])
  }

  ghost predicate MovedAt(view: View, moves: seq<Move>, states: seq<Shared>, k: nat)
    requires k < |moves|
  {
    k + 1 < |states| && Moved(view, states[k], moves[k], states[k + 1])
  }

  /** The states after each of the moves of the threads and the walk, in any order. */
  method RunThreads(decode: Decoder, view: View, threads: nat, seeds: seq<nat>, moves: seq<Move>) returns (states: seq<Shared>)
    requires DecoderOk(decode) && InLimit(seeds) && MovesInLimit(moves)
    ensures |states| == |moves| + 1 && states[0] == Started(view, threads, seeds)
    ensures SoundStates(decode, states) && OnlyGrow(states)
    ensures forall k | 0 <= k < |moves| :: MovedAt(view, moves, states, k)
  {
    StartedSound(decode, view, threads, seeds);
    states := [Started(view, threads, seeds)];
    for k := 0 to |moves|
      invariant |states| == k + 1 && states[0] == Started(view, threads, seeds)
      invariant SoundStates(decode, states) && OnlyGrow(states)
      invariant forall n | 0 <= n < k :: MovedAt(view, moves, states, n)
    {
      assert MoveInLimit(moves[k]);
      var t := MakeMove(decode, view, states[k], moves[k]);
      forall n | 0 <= n <= k ensures Extends(states[n], t) {
        ExtendsOn(states[n], states[k], t);
      }
      ghost var before := states;
      states := states + [t];
      forall n | 0 <= n < k ensures MovedAt(view, moves, states, n) {
        assert MovedAt(view, moves, before, n);
      }
    }
  }
}
