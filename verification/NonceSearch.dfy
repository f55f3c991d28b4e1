/** The parallel nonce search of ConsensusEngine.Mine as interleaved atomic steps: workers that
    claim chunks of nonces from a shared counter, a result channel of capacity one, and the main
    goroutine that receives and then closes the stop channel. */
module NonceSearch {
  import opened MachineInts
  import opened Blocks

  const CHUNK: nat := 50000

  datatype Found = Found(nonce: u64, hash: Bytes)

  /** Where a worker stands in its loop: about to look at the stop channel, about to claim if its
      nonce is a multiple of the chunk size, about to hash, about to send what it found, done. */
  datatype Phase = AtSelect | AtClaim | AtHash | AtSend(hash: Bytes) | Done

  /** next and end record the part of the last claimed chunk not hashed yet; the Go worker does not
      store them. */
  datatype Worker = Worker(localNonce: u64, phase: Phase, next: nat, end: nat)

  /** claims and hashed are records of the run: the number of claims and the nonces hashed. */
  datatype Search = Search(
    workers: seq<Worker>,
    baseNonce: u64,
    claims: nat,
    hashed: seq<nat>,
    channel: Option<Found>,
    delivered: Option<Found>,
    stopped: bool)

  /** What the workers search: the filled block and the engine's target. */
  datatype Task = Task(w: World, b: LedgerBlock, difficulty: u32)

  datatype Step = Look(i: nat) | Claim(i: nat) | Hash(i: nat) | Send(i: nat) | Receive | Close

  function Start(workers: nat): Search
    requires workers * 1000000000 < TWO_64
  {
    Search(seq(workers, i requires 0 <= i < workers => Worker(i * 1000000000, AtSelect, 0, 0)),
           0, 0, [], None, None, false)
  }

  predicate Enabled(s: Search, step: Step) {
    match step
    case Look(i) => i < |s.workers| && s.workers[i].phase.AtSelect?
    case Claim(i) => i < |s.workers| && s.workers[i].phase.AtClaim?
    case Hash(i) => i < |s.workers| && s.workers[i].phase.AtHash?
    case Send(i) => i < |s.workers| && s.workers[i].phase.AtSend?
    case Receive => s.channel.Some? && s.delivered.None?
    case Close => s.delivered.Some? && !s.stopped
  }

  function Next(t: Task, s: Search, step: Step): Search
    requires Enabled(s, step)
  {
    match step
    case Look(i) =>
      s.(workers := s.workers[i := s.workers[i].(phase := if s.stopped then Done else AtClaim)])
    case Claim(i) =>
      var me := s.workers[i];
      if me.localNonce % CHUNK == 0 then
        var base := Add64(s.baseNonce, CHUNK);
        s.(baseNonce := base, claims := s.claims + 1,
           workers := s.workers[i := Worker(base, AtHash, base, base + CHUNK)])
      else
        s.(workers := s.workers[i := me.(phase := AtHash)])
    case Hash(i) =>
      var me := s.workers[i];
      var hash := HashAt(t.w, t.b, me.localNonce);
      var after := me.(next := me.localNonce + 1);
      s.(hashed := s.hashed + [me.localNonce],
         workers := s.workers[i :=
           if MeetsTarget(hash, t.difficulty) then after.(phase := AtSend(hash))
           else after.(phase := AtSelect, localNonce := Add64(me.localNonce, 1))])
    case Send(i) =>
      var me := s.workers[i];
      s.(channel := if s.channel.None? then Some(Found(me.localNonce, me.phase.hash)) else s.channel,
         workers := s.workers[i := me.(phase := Done)])
    case Receive => s.(delivered := s.channel, channel := None)
    case Close => s.(stopped := true)
  }

  predicate Possible(t: Task, s: Search, steps: seq<Step>)
    decreases |steps|
  {
    |steps| > 0 ==> Enabled(s, steps[0]) && Possible(t, Next(t, s, steps[0]), steps[1..])
  }

  function Run(t: Task, s: Search, steps: seq<Step>): Search
    requires Possible(t, s, steps)
    decreases |steps|
  {
    if |steps| == 0 then s else Run(t, Next(t, s, steps[0]), steps[1..])
  }

  /** A nonce a worker has claimed but not hashed. */
  predicate InTail(me: Worker, n: nat) {
    me.next <= n < me.end
  }

  predicate WorkerOk(s: Search, me: Worker) {
    && me.next <= me.end
    && (me.end == 0 ||
          (me.end % CHUNK == 0 && 2 * CHUNK <= me.end <= s.baseNonce + CHUNK && me.end - CHUNK <= me.next))
    && (me.phase.AtSelect? || me.phase.AtClaim? ==>
          if me.next == me.end then me.localNonce % CHUNK == 0
          else me.localNonce == me.next && me.end - CHUNK < me.next)
    && (me.phase.AtHash? ==> me.localNonce == me.next < me.end)
  }

  predicate GoodFind(t: Task, f: Found) {
    f.hash == HashAt(t.w, t.b, f.nonce) && MeetsTarget(f.hash, t.difficulty)
  }

  /** No two workers hold the same chunk. */
  predicate ChunksDisjoint(s: Search) {
    forall i, j :: 0 <= i < j < |s.workers| && s.workers[i].end == s.workers[j].end ==> s.workers[i].end == 0
  }

  predicate HashedOnce(s: Search) {
    forall i, j :: 0 <= i < j < |s.hashed| ==> s.hashed[i] != s.hashed[j]
  }

  predicate HeldBy(s: Search, i: nat, n: nat)
    requires i < |s.workers|
  {
    InTail(s.workers[i], n)
  }

  predicate Held(s: Search, n: nat) {
    exists i :: 0 <= i < |s.workers| && HeldBy(s, i, n)
  }

  predicate InClaimedRange(s: Search, n: nat) {
    CHUNK <= n < s.baseNonce + CHUNK
  }

  /** Every nonce of the claimed range is hashed or held, never both, and no other nonce is either. */
  ghost predicate Partitioned(s: Search) {
    && (forall n: nat {:trigger n in s.hashed} {:trigger Held(s, n)} :: !(n in s.hashed && Held(s, n)))
    && (forall n: nat {:trigger n in s.hashed} {:trigger Held(s, n)} {:trigger InClaimedRange(s, n)} ::
          InClaimedRange(s, n) <==> n in s.hashed || Held(s, n))
  }

  ghost predicate Inv(s: Search) {
    && s.baseNonce == CHUNK * s.claims
    && (forall i :: 0 <= i < |s.workers| ==> WorkerOk(s, s.workers[i]))
    && ChunksDisjoint(s)
    && HashedOnce(s)
    && Partitioned(s)
  }

  /** The claims a uint64 counter can serve before it wraps. */
  predicate CounterHolds(s: Search) {
    CHUNK * (s.claims + 1) < TWO_64
  }

  /** Whatever has been found hashes to what it says and meets the target. */
  predicate Honest(t: Task, s: Search) {
    && (forall i :: 0 <= i < |s.workers| && s.workers[i].phase.AtSend? ==>
          GoodFind(t, Found(s.workers[i].localNonce, s.workers[i].phase.hash)))
    && (s.channel.Some? ==> GoodFind(t, s.channel.value))
    && (s.delivered.Some? ==> GoodFind(t, s.delivered.value))
  }

  // ---- Every step keeps the invariant ----

  lemma OneHolder(s: Search, i: nat, j: nat, n: nat)
    requires Inv(s)
    requires i < |s.workers| && j < |s.workers| && HeldBy(s, i, n) && HeldBy(s, j, n)
    ensures i == j
  {
    var a, b := s.workers[i], s.workers[j];
    assert WorkerOk(s, a) && WorkerOk(s, b);
    assert a.end == b.end;
  }

  /** A worker at a multiple of the chunk size has nothing left of its chunk. */
  lemma ClaimerIsEmpty(s: Search, i: nat)
    requires Inv(s)
    requires i < |s.workers| && s.workers[i].phase.AtClaim? && s.workers[i].localNonce % CHUNK == 0
    ensures s.workers[i].next == s.workers[i].end
  {
    assert WorkerOk(s, s.workers[i]);
  }

  /** A step of worker i that changes neither its tail nor the hashed nonces nor the counter. */
  lemma SameTails(s: Search, s': Search, i: nat)
    requires Inv(s)
    requires i < |s.workers| == |s'.workers|
    requires s'.workers == s.workers[i := s'.workers[i]]
    requires s'.workers[i].next == s.workers[i].next && s'.workers[i].end == s.workers[i].end
    requires WorkerOk(s', s'.workers[i])
    requires s'.hashed == s.hashed && s'.baseNonce == s.baseNonce && s'.claims == s.claims
    ensures Inv(s')
  {
    forall n ensures Held(s', n) <==> Held(s, n) {
      if j :| 0 <= j < |s.workers| && HeldBy(s, j, n) {
        assert HeldBy(s', j, n);
      }
      if j :| 0 <= j < |s'.workers| && HeldBy(s', j, n) {
        assert HeldBy(s, j, n);
      }
    }
    forall n ensures InClaimedRange(s', n) <==> InClaimedRange(s, n) {
    }
    forall j | 0 <= j < |s'.workers| ensures WorkerOk(s', s'.workers[j]) {
      assert WorkerOk(s, s.workers[j]);
    }
  }

  lemma ClaimKeeps(t: Task, s: Search, i: nat)
    requires Inv(s)
    requires Enabled(s, Claim(i)) && s.workers[i].localNonce % CHUNK == 0
    requires CounterHolds(Next(t, s, Claim(i)))
    ensures Inv(Next(t, s, Claim(i)))
  {
    var s' := Next(t, s, Claim(i));
    ClaimerIsEmpty(s, i);
    var base := s'.baseNonce;
    assert base == s.baseNonce + CHUNK;
    forall j | 0 <= j < |s'.workers| ensures WorkerOk(s', s'.workers[j]) {
      assert WorkerOk(s, s.workers[j]);
    }
    forall n: nat ensures Held(s', n) <==> Held(s, n) || base <= n < base + CHUNK {
      if j :| 0 <= j < |s.workers| && HeldBy(s, j, n) {
        assert HeldBy(s', j, n);
      }
      if base <= n < base + CHUNK {
        assert HeldBy(s', i, n);
      }
      if j :| 0 <= j < |s'.workers| && HeldBy(s', j, n) {
        assert j != i ==> HeldBy(s, j, n);
      }
    }
    forall n: nat
      ensures InClaimedRange(s', n) <==> n in s'.hashed || Held(s', n)
      ensures !(n in s'.hashed && Held(s', n))
    {
      assert InClaimedRange(s', n) <==> InClaimedRange(s, n) || base <= n < base + CHUNK;
    }
  }

  /** Hashing takes one nonce out of the tails. */
  lemma HashReleases(t: Task, s: Search, i: nat, n: nat)
    requires Inv(s)
    requires Enabled(s, Hash(i))
    ensures HeldBy(s, i, s.workers[i].localNonce)
    ensures Held(Next(t, s, Hash(i)), n) <==> Held(s, n) && n != s.workers[i].localNonce
  {
    var s' := Next(t, s, Hash(i));
    var done := s.workers[i].localNonce;
    assert WorkerOk(s, s.workers[i]);
    if j :| 0 <= j < |s.workers| && HeldBy(s, j, n) {
      if n == done {
        OneHolder(s, i, j, n);
      } else {
        assert HeldBy(s', j, n);
      }
    }
    if j :| 0 <= j < |s'.workers| && HeldBy(s', j, n) {
      assert HeldBy(s, j, n);
      if n == done {
        OneHolder(s, i, j, n);
      }
    }
  }

  /** After hashing its nonce, a worker stands at a multiple of the chunk size only at its chunk's end. */
  lemma NextNonce(s: Search, me: Worker)
    requires WorkerOk(s, me) && me.phase.AtHash?
    requires s.baseNonce == CHUNK * s.claims && CounterHolds(s)
    ensures Add64(me.localNonce, 1) == me.localNonce + 1 <= me.end
    ensures (me.localNonce + 1) % CHUNK == 0 <==> me.localNonce + 1 == me.end
  {
    var q := me.end / CHUNK;
    assert me.end == CHUNK * q;
  }

  lemma HashKeepsWorkers(t: Task, s: Search, i: nat)
    requires Inv(s) && CounterHolds(s)
    requires Enabled(s, Hash(i))
    ensures
      var s' := Next(t, s, Hash(i));
      forall j :: 0 <= j < |s'.workers| ==> WorkerOk(s', s'.workers[j])
  {
    var s' := Next(t, s, Hash(i));
    var me := s.workers[i];
    assert WorkerOk(s, me);
    NextNonce(s, me);
    forall j | 0 <= j < |s'.workers| ensures WorkerOk(s', s'.workers[j]) {
      if j != i {
        assert WorkerOk(s, s.workers[j]);
      }
    }
  }

  lemma HashKeeps(t: Task, s: Search, i: nat)
    requires Inv(s) && CounterHolds(s)
    requires Enabled(s, Hash(i))
    ensures Inv(Next(t, s, Hash(i)))
  {
    var s' := Next(t, s, Hash(i));
    var done := s.workers[i].localNonce;
    HashKeepsWorkers(t, s, i);
    HashReleases(t, s, i, done);
    assert Held(s, done);
    forall n: nat
      ensures InClaimedRange(s', n) <==> n in s'.hashed || Held(s', n)
      ensures !(n in s'.hashed && Held(s', n))
    {
      HashReleases(t, s, i, n);
      assert n in s'.hashed <==> n in s.hashed || n == done;
      assert InClaimedRange(s', n) <==> InClaimedRange(s, n);
    }
  }

  lemma StepKeepsInv(t: Task, s: Search, step: Step)
    requires Inv(s) && Enabled(s, step)
    requires CounterHolds(Next(t, s, step))
    ensures Inv(Next(t, s, step))
  {
    var s' := Next(t, s, step);
    match step {
      case Claim(i) =>
        assert WorkerOk(s, s.workers[i]);
        if s.workers[i].localNonce % CHUNK == 0 {
          ClaimKeeps(t, s, i);
        } else {
          SameTails(s, s', i);
        }
      case Hash(i) =>
        HashKeeps(t, s, i);
      case Look(i) =>
        assert WorkerOk(s, s.workers[i]);
        SameTails(s, s', i);
      case Send(i) =>
        assert WorkerOk(s, s.workers[i]);
        SameTails(s, s', i);
      case Receive =>
        SameSearch(s, s');
      case Close =>
        SameSearch(s, s');
    }
  }

  lemma SameSearch(s: Search, s': Search)
    requires Inv(s)
    requires s'.workers == s.workers && s'.hashed == s.hashed && s'.baseNonce == s.baseNonce && s'.claims == s.claims
    ensures Inv(s')
  {
    forall n ensures Held(s', n) <==> Held(s, n) {
      assert forall j :: 0 <= j < |s.workers| ==> (HeldBy(s', j, n) <==> HeldBy(s, j, n));
    }
    forall n ensures InClaimedRange(s', n) <==> InClaimedRange(s, n) {
    }
    forall j | 0 <= j < |s'.workers| ensures WorkerOk(s', s'.workers[j]) {
      assert WorkerOk(s, s.workers[j]);
    }
  }

  lemma StartInv(workers: nat)
    requires workers * 1000000000 < TWO_64
    ensures Inv(Start(workers))
  {
    var s := Start(workers);
    forall n ensures !Held(s, n) {
      assert forall j :: 0 <= j < |s.workers| ==> !HeldBy(s, j, n);
    }
    forall j | 0 <= j < |s.workers| ensures WorkerOk(s, s.workers[j]) {
      assert j * 1000000000 == CHUNK * (20000 * j);
    }
  }

  lemma {:induction false} ClaimsGrow(t: Task, s: Search, steps: seq<Step>)
    requires Possible(t, s, steps)
    ensures Run(t, s, steps).claims >= s.claims
    decreases |steps|
  {
    if |steps| > 0 {
      ClaimsGrow(t, Next(t, s, steps[0]), steps[1..]);
    }
  }

  lemma {:induction false} RunKeepsInv(t: Task, s: Search, steps: seq<Step>)
    requires Inv(s) && Possible(t, s, steps)
    requires CounterHolds(Run(t, s, steps))
    ensures Inv(Run(t, s, steps))
    decreases |steps|
  {
    if |steps| > 0 {
      var s' := Next(t, s, steps[0]);
      ClaimsGrow(t, s', steps[1..]);
      StepKeepsInv(t, s, steps[0]);
      RunKeepsInv(t, s', steps[1..]);
    }
  }

  /** In every interleaving of any number of workers, as long as the shared counter has not wrapped:
      no nonce is hashed twice, chunks are disjoint, and a nonce of the claimed range is either
      hashed or left in the tail of exactly one worker. */
  lemma SearchCoversRange(t: Task, workers: nat, steps: seq<Step>)
    requires workers * 1000000000 < TWO_64
    requires Possible(t, Start(workers), steps)
    requires CounterHolds(Run(t, Start(workers), steps))
    ensures
      var s := Run(t, Start(workers), steps);
      && HashedOnce(s) && ChunksDisjoint(s)
      && s.baseNonce == CHUNK * s.claims
      && (forall n: nat :: InClaimedRange(s, n) <==> n in s.hashed || Held(s, n))
      && (forall n: nat :: n in s.hashed ==> !Held(s, n))
      && (forall n: nat, i, j ::
            0 <= i < |s.workers| && 0 <= j < |s.workers| && HeldBy(s, i, n) && HeldBy(s, j, n) ==> i == j)
  {
    StartInv(workers);
    RunKeepsInv(t, Start(workers), steps);
    var s := Run(t, Start(workers), steps);
    forall n: nat, i, j | 0 <= i < |s.workers| && 0 <= j < |s.workers| && HeldBy(s, i, n) && HeldBy(s, j, n)
      ensures i == j
    {
      OneHolder(s, i, j, n);
    }
  }

  lemma HashKeepsHonest(t: Task, s: Search, i: nat)
    requires Honest(t, s) && Enabled(s, Hash(i))
    ensures Honest(t, Next(t, s, Hash(i)))
  {
  }

  lemma ClaimKeepsHonest(t: Task, s: Search, i: nat)
    requires Honest(t, s) && Enabled(s, Claim(i))
    ensures Honest(t, Next(t, s, Claim(i)))
  {
  }

  lemma SendKeepsHonest(t: Task, s: Search, i: nat)
    requires Honest(t, s) && Enabled(s, Send(i))
    ensures Honest(t, Next(t, s, Send(i)))
  {
  }

  lemma StepKeepsHonest(t: Task, s: Search, step: Step)
    requires Honest(t, s) && Enabled(s, step)
    ensures Honest(t, Next(t, s, step))
  {
    match step {
      case Hash(i) => HashKeepsHonest(t, s, i);
      case Claim(i) => ClaimKeepsHonest(t, s, i);
      case Send(i) => SendKeepsHonest(t, s, i);
      case _ =>
    }
  }

  lemma {:induction false} RunKeepsHonest(t: Task, s: Search, steps: seq<Step>)
    requires Honest(t, s) && Possible(t, s, steps)
    ensures Honest(t, Run(t, s, steps))
    decreases |steps|
  {
    if |steps| > 0 {
      StepKeepsHonest(t, s, steps[0]);
      RunKeepsHonest(t, Next(t, s, steps[0]), steps[1..]);
    }
  }

  /** What Mine receives, in every interleaving and even past a wrap of the counter: a nonce that
      wins, with the hash of the block at that very nonce. */
  lemma DeliveryWins(t: Task, workers: nat, steps: seq<Step>)
    requires workers * 1000000000 < TWO_64
    requires Possible(t, Start(workers), steps)
    ensures
      var found := Run(t, Start(workers), steps).delivered;
      found.Some? ==>
        && Wins(t.w, t.b, t.difficulty, found.value.nonce)
        && found.value.hash == HashAt(t.w, t.b, found.value.nonce)
  {
    RunKeepsHonest(t, Start(workers), steps);
  }

  // ---- Past the wrap of the counter ----

  lemma {:induction false} RunSplits(t: Task, s: Search, first: seq<Step>, second: seq<Step>)
    requires Possible(t, s, first) && Possible(t, Run(t, s, first), second)
    ensures Possible(t, s, first + second)
    ensures Run(t, s, first + second) == Run(t, Run(t, s, first), second)
    decreases |first|
  {
    if |first| == 0 {
      assert first + second == second;
    } else {
      assert (first + second)[1..] == first[1..] + second;
      RunSplits(t, Next(t, s, first[0]), first[1..], second);
    }
  }

  /** One turn of worker 0. */
  const ROUND: seq<Step> := [Look(0), Claim(0), Hash(0)]

  function Rounds(r: nat): seq<Step> {
    if r == 0 then [] else Rounds(r - 1) + ROUND
  }

  /** Worker 0 is about to look, with this nonce and this counter, and these nonces are hashed. */
  predicate Turning(s: Search, localNonce: u64, base: u64, hashed: seq<nat>) {
    && |s.workers| > 0 && s.workers[0].phase.AtSelect? && !s.stopped
    && s.workers[0].localNonce == localNonce && s.baseNonce == base && s.hashed == hashed
  }

  /** The nonce a worker hashes in a turn from these counters. */
  function TurnNonce(localNonce: u64, base: u64): u64 {
    if localNonce % CHUNK == 0 then Add64(base, CHUNK) else localNonce
  }

  /** A turn claims at a multiple of the chunk size and hashes one nonce. */
  lemma OneRound(t: Task, s: Search, localNonce: u64, base: u64, hashed: seq<nat>)
    requires Turning(s, localNonce, base, hashed)
    requires !Wins(t.w, t.b, t.difficulty, TurnNonce(localNonce, base))
    ensures Possible(t, s, ROUND)
    ensures
      var base' := if localNonce % CHUNK == 0 then Add64(base, CHUNK) else base;
      var nonce := TurnNonce(localNonce, base);
      Turning(Run(t, s, ROUND), Add64(nonce, 1), base', hashed + [nonce])
  {
    var s1 := Next(t, s, ROUND[0]);
    var s2 := Next(t, s1, ROUND[1]);
    assert !Wins(t.w, t.b, t.difficulty, s2.workers[0].localNonce);
    var s3 := Next(t, s2, ROUND[2]);
    assert ROUND[1..] == [Claim(0), Hash(0)] && ROUND[1..][1..] == [Hash(0)] && ROUND[1..][1..][1..] == [];
    assert Possible(t, s3, []) && Run(t, s3, []) == s3;
    assert Possible(t, s2, [Hash(0)]) && Run(t, s2, [Hash(0)]) == s3;
    assert Possible(t, s1, [Claim(0), Hash(0)]) && Run(t, s1, [Claim(0), Hash(0)]) == s3;
  }

  /** The turns after which worker 0 has hashed every nonce from the first chunk to the last a uint64
      holds, and the turns it then spends in the piece of a chunk that the wrapped claim gives it. */
  const FIRST_PASS: nat := 0x1_0000_0000_0000_0000 - 50000
  const PIECE: nat := 1616

  /** The nonce worker 0 hashes at turn r, when it is alone and nothing wins. */
  function NonceAt(r: nat): nat {
    if r < FIRST_PASS then 50000 + r
    else if r < FIRST_PASS + PIECE then 48384 + (r - FIRST_PASS)
    else 98384
  }

  /** The worker's own counter before turn r, and the shared one. */
  function LocalAt(r: nat): nat {
    if r == 0 || r == FIRST_PASS then 0 else NonceAt(r - 1) + 1
  }

  function BaseAt(r: nat): nat {
    if r == 0 then 0 else if r <= FIRST_PASS then 50000 * ((49999 + r) / 50000) else 48384
  }

  function HashedAt(r: nat): seq<nat> {
    if r == 0 then [] else HashedAt(r - 1) + [NonceAt(r - 1)]
  }

  lemma {:induction false} HashedIndex(r: nat, j: nat)
    requires j < r
    ensures |HashedAt(r)| == r && HashedAt(r)[j] == NonceAt(j)
    decreases r
  {
    if r > 1 {
      HashedIndex(r - 1, if j < r - 1 then j else 0);
    }
  }

  /** A turn from these counters hashes this nonce and leaves those. */
  predicate TurnGoes(localNonce: nat, base: nat, nonce: nat, localAfter: nat, baseAfter: nat) {
    && localNonce < TWO_64 && base < TWO_64 && nonce < TWO_64
    && baseAfter == (if localNonce % CHUNK == 0 then Add64(base, CHUNK) else base)
    && nonce == TurnNonce(localNonce, base)
    && localAfter == Add64(nonce, 1)
  }

  lemma TurnInside(r: nat)
    requires 0 < r < FIRST_PASS - 1
    ensures TurnGoes(50000 + r, 50000 * ((49999 + r) / 50000), 50000 + r, 50001 + r, 50000 * ((50000 + r) / 50000))
  {
    if r % 50000 == 0 {
      assert (49999 + r) / 50000 == r / 50000;
      assert (50000 + r) / 50000 == r / 50000 + 1;
    } else {
      assert (49999 + r) / 50000 == (50000 + r) / 50000;
    }
  }

  lemma TurnAtEdges()
    ensures TurnGoes(0, 0, 50000, 50001, 50000)
    ensures TurnGoes(0xFFFF_FFFF_FFFF_FFFF, 18446744073709550000, 0xFFFF_FFFF_FFFF_FFFF, 0, 18446744073709550000)
    ensures TurnGoes(0, 18446744073709550000, 48384, 48385, 48384)
  {
  }

  lemma TurnInPiece(q: nat)
    requires 0 < q < PIECE
    ensures TurnGoes(48384 + q, 48384, 48384 + q, 48385 + q, 48384)
  {
  }

  /** The counters one turn later, the turn that wraps the shared one included. */
  lemma CountersStep(r: nat)
    requires r < FIRST_PASS + PIECE
    ensures TurnGoes(LocalAt(r), BaseAt(r), NonceAt(r), LocalAt(r + 1), BaseAt(r + 1))
  {
    TurnAtEdges();
    if 0 < r < FIRST_PASS - 1 {
      TurnInside(r);
    } else if r > FIRST_PASS {
      TurnInPiece(r - FIRST_PASS);
    }
  }

  /** Worker 0 stands before turn r. */
  predicate BeforeTurn(s: Search, r: nat)
    requires r <= FIRST_PASS + PIECE
  {
    LocalAt(r) < TWO_64 && BaseAt(r) < TWO_64 && Turning(s, LocalAt(r), BaseAt(r), HashedAt(r))
  }

  /** The nonce of turn r does not win. */
  predicate LosesAt(t: Task, r: nat) {
    NonceAt(r) < TWO_64 ==> !Wins(t.w, t.b, t.difficulty, NonceAt(r))
  }

  /** Nor does that of any turn before r. */
  ghost predicate LosesBefore(t: Task, r: nat) {
    forall q :: 0 <= q < r ==> LosesAt(t, q)
  }

  lemma RoundAdvances(t: Task, s: Search, r: nat)
    requires r < FIRST_PASS + PIECE && BeforeTurn(s, r)
    requires LosesAt(t, r)
    ensures Possible(t, s, ROUND) && BeforeTurn(Run(t, s, ROUND), r + 1)
  {
    CountersStep(r);
    OneRound(t, s, LocalAt(r), BaseAt(r), HashedAt(r));
    assert HashedAt(r + 1) == HashedAt(r) + [NonceAt(r)];
  }

  lemma RoundMore(t: Task, s: Search, steps: seq<Step>, r: nat)
    requires Possible(t, s, steps) && r < FIRST_PASS + PIECE && BeforeTurn(Run(t, s, steps), r)
    requires LosesAt(t, r)
    ensures Possible(t, s, steps + ROUND) && BeforeTurn(Run(t, s, steps + ROUND), r + 1)
  {
    RoundAdvances(t, Run(t, s, steps), r);
    RunSplits(t, s, steps, ROUND);
  }

  lemma {:induction false} RoundsReach(t: Task, s: Search, r: nat)
    requires BeforeTurn(s, 0)
    requires r <= FIRST_PASS + PIECE && LosesBefore(t, r)
    ensures Possible(t, s, Rounds(r)) && BeforeTurn(Run(t, s, Rounds(r)), r)
  {
    if r > 0 {
      var q := r - 1;
      assert LosesAt(t, q);
      RoundsReach(t, s, q);
      RoundMore(t, s, Rounds(q), q);
    }
  }

  /** The turn after the piece hashes a nonce of the first chunk. */
  lemma RoundRepeats(t: Task, s: Search)
    requires BeforeTurn(s, FIRST_PASS + PIECE)
    requires forall n: u64 :: !Wins(t.w, t.b, t.difficulty, n)
    ensures Possible(t, s, ROUND)
    ensures Run(t, s, ROUND).baseNonce == 98384 && !HashedOnce(Run(t, s, ROUND))
  {
    var r := FIRST_PASS + PIECE;
    OneRound(t, s, LocalAt(r), BaseAt(r), HashedAt(r));
    HashedIndex(r, 48384);
    var hashed := Run(t, s, ROUND).hashed;
    assert hashed[48384] == 98384 == hashed[r];
  }

  /** Why the counter's range is a hypothesis: with any number of workers and no nonce that wins, a
      run of the first worker wraps the shared counter off the chunk grid and hashes the nonce
      98384 a second time. */
  lemma WrappedCounterRepeats(t: Task, workers: nat)
    requires 0 < workers && workers * 1000000000 < TWO_64
    requires forall n: u64 :: !Wins(t.w, t.b, t.difficulty, n)
    ensures
      var steps := Rounds(FIRST_PASS + PIECE + 1);
      && Possible(t, Start(workers), steps)
      && Run(t, Start(workers), steps).baseNonce == 98384
      && !HashedOnce(Run(t, Start(workers), steps))
  {
    var r := FIRST_PASS + PIECE;
    var s := Start(workers);
    RoundsReach(t, s, r);
    RoundRepeats(t, Run(t, s, Rounds(r)));
    RunSplits(t, s, Rounds(r), ROUND);
  }

  // ---- A find is kept, delivered, and ends the search ----

  /** Some worker is about to send what it has found, or it is in the channel, or delivered. */
  ghost predicate FindKept(s: Search) {
    || s.channel.Some? || s.delivered.Some?
    || exists i :: 0 <= i < |s.workers| && s.workers[i].phase.AtSend?
  }

  /** One of the nonces hashed wins. */
  ghost predicate HashedWinner(t: Task, s: Search) {
    exists n: u64 :: n in s.hashed && Wins(t.w, t.b, t.difficulty, n)
  }

  /** What is about to be sent, in the channel or delivered has been hashed. */
  ghost predicate FindsHashed(s: Search) {
    && (forall i :: 0 <= i < |s.workers| && s.workers[i].phase.AtSend? ==> s.workers[i].localNonce in s.hashed)
    && (s.channel.Some? ==> s.channel.value.nonce in s.hashed)
    && (s.delivered.Some? ==> s.delivered.value.nonce in s.hashed)
  }

  /** No find is lost, and none comes from nowhere. */
  ghost predicate FindsMatch(t: Task, s: Search) {
    && FindsHashed(s)
    && (HashedWinner(t, s) ==> FindKept(s))
  }

  lemma HashedMore(s: Search, s': Search, n: nat)
    requires |s'.hashed| == |s.hashed| + 1 && s'.hashed[..|s.hashed|] == s.hashed
    ensures n in s'.hashed <==> n in s.hashed || n == s'.hashed[|s.hashed|]
  {
  }

  lemma HashKeepsFindsHashed(t: Task, s: Search, i: nat)
    requires FindsHashed(s) && Enabled(s, Hash(i))
    ensures FindsHashed(Next(t, s, Hash(i)))
  {
    var s' := Next(t, s, Hash(i));
    forall n: nat ensures n in s'.hashed <==> n in s.hashed || n == s.workers[i].localNonce {
      HashedMore(s, s', n);
    }
  }

  lemma HashMatches(t: Task, s: Search, i: nat)
    requires FindsMatch(t, s) && Enabled(s, Hash(i))
    ensures FindsMatch(t, Next(t, s, Hash(i)))
  {
    var s' := Next(t, s, Hash(i));
    HashKeepsFindsHashed(t, s, i);
    if HashedWinner(t, s') {
      var n: u64 :| n in s'.hashed && Wins(t.w, t.b, t.difficulty, n);
      HashedMore(s, s', n);
      if n == s.workers[i].localNonce {
        WinnerIsKept(t, s, i);
      } else {
        KeptBeside(s, s', i);
      }
    }
  }

  lemma WinnerIsKept(t: Task, s: Search, i: nat)
    requires Enabled(s, Hash(i)) && Wins(t.w, t.b, t.difficulty, s.workers[i].localNonce)
    ensures FindKept(Next(t, s, Hash(i)))
  {
    assert Next(t, s, Hash(i)).workers[i].phase.AtSend?;
  }

  /** A step of worker i that is not about to send keeps what others have found. */
  lemma KeptBeside(s: Search, s': Search, i: nat)
    requires FindKept(s) && i < |s.workers| == |s'.workers| && !s.workers[i].phase.AtSend?
    requires forall j :: 0 <= j < |s.workers| && j != i ==> s'.workers[j] == s.workers[j]
    requires s'.channel == s.channel && s'.delivered == s.delivered
    ensures FindKept(s')
  {
    if j :| 0 <= j < |s.workers| && s.workers[j].phase.AtSend? {
      assert s'.workers[j].phase.AtSend?;
    }
  }

  /** A step of worker i that is neither about to send nor hashes. */
  lemma QuietStepMatches(t: Task, s: Search, s': Search, i: nat)
    requires FindsMatch(t, s) && i < |s.workers| == |s'.workers|
    requires !s.workers[i].phase.AtSend? && !s'.workers[i].phase.AtSend?
    requires forall j :: 0 <= j < |s.workers| && j != i ==> s'.workers[j] == s.workers[j]
    requires s'.hashed == s.hashed && s'.channel == s.channel && s'.delivered == s.delivered
    ensures FindsMatch(t, s')
  {
    if HashedWinner(t, s') {
      assert HashedWinner(t, s);
      KeptBeside(s, s', i);
    }
  }

  lemma LookMatches(t: Task, s: Search, i: nat)
    requires FindsMatch(t, s) && Enabled(s, Look(i))
    ensures FindsMatch(t, Next(t, s, Look(i)))
  {
    QuietStepMatches(t, s, Next(t, s, Look(i)), i);
  }

  lemma ClaimMatches(t: Task, s: Search, i: nat)
    requires FindsMatch(t, s) && Enabled(s, Claim(i))
    ensures FindsMatch(t, Next(t, s, Claim(i)))
  {
    QuietStepMatches(t, s, Next(t, s, Claim(i)), i);
  }

  lemma SendMatches(t: Task, s: Search, i: nat)
    requires FindsMatch(t, s) && Enabled(s, Send(i))
    ensures FindsMatch(t, Next(t, s, Send(i)))
  {
  }

  lemma StepKeepsFinds(t: Task, s: Search, step: Step)
    requires FindsMatch(t, s) && Enabled(s, step)
    ensures FindsMatch(t, Next(t, s, step))
  {
    match step {
      case Hash(i) => HashMatches(t, s, i);
      case Look(i) => LookMatches(t, s, i);
      case Claim(i) => ClaimMatches(t, s, i);
      case Send(i) => SendMatches(t, s, i);
      case Receive =>
      case Close =>
        assert HashedWinner(t, Next(t, s, Close)) ==> HashedWinner(t, s);
    }
  }

  lemma {:induction false} RunKeepsFinds(t: Task, s: Search, steps: seq<Step>)
    requires FindsMatch(t, s) && Possible(t, s, steps)
    ensures FindsMatch(t, Run(t, s, steps))
    decreases |steps|
  {
    if |steps| > 0 {
      StepKeepsFinds(t, s, steps[0]);
      RunKeepsFinds(t, Next(t, s, steps[0]), steps[1..]);
    }
  }

  /** In every interleaving, some nonce hashed wins if and only if a find is about to be sent, in the
      channel or delivered. */
  lemma WinnerIffFindKept(t: Task, workers: nat, steps: seq<Step>)
    requires workers * 1000000000 < TWO_64 && Possible(t, Start(workers), steps)
    ensures
      var s := Run(t, Start(workers), steps);
      HashedWinner(t, s) <==> FindKept(s)
  {
    RunKeepsFinds(t, Start(workers), steps);
    RunKeepsHonest(t, Start(workers), steps);
    var s := Run(t, Start(workers), steps);
    if i :| 0 <= i < |s.workers| && s.workers[i].phase.AtSend? {
      assert s.workers[i].localNonce in s.hashed;
    }
  }

  /** A send into the empty channel is received as it is: that worker's nonce and hash. */
  lemma SendIsDelivered(t: Task, s: Search, i: nat)
    requires s.channel.None? && s.delivered.None? && Enabled(s, Send(i))
    ensures
      var sent := Next(t, s, Send(i));
      && Enabled(sent, Receive)
      && Next(t, sent, Receive).delivered == Some(Found(s.workers[i].localNonce, s.workers[i].phase.hash))
      && (!s.stopped ==> Enabled(Next(t, sent, Receive), Close))
  {
  }

  /** A send into the full channel is dropped, and delivers nothing else later. */
  lemma SecondSendIsDropped(t: Task, s: Search, i: nat)
    requires s.channel.Some? && Enabled(s, Send(i))
    ensures Next(t, s, Send(i)).channel == s.channel && Next(t, s, Send(i)).workers[i].phase.Done?
  {
  }

  /** The turn of worker 0 that finds, and what follows it. */
  const FINDING: seq<Step> := [Look(0), Claim(0), Hash(0), Send(0), Receive]

  lemma FindingRound(t: Task, s: Search, localNonce: u64, base: u64, hashed: seq<nat>)
    requires Turning(s, localNonce, base, hashed) && s.channel.None? && s.delivered.None?
    requires Wins(t.w, t.b, t.difficulty, TurnNonce(localNonce, base))
    ensures Possible(t, s, FINDING)
    ensures
      var nonce := TurnNonce(localNonce, base);
      Run(t, s, FINDING).delivered == Some(Found(nonce, HashAt(t.w, t.b, nonce)))
  {
    var s1 := Next(t, s, Look(0));
    var s2 := Next(t, s1, Claim(0));
    var s3 := Next(t, s2, Hash(0));
    var s4 := Next(t, s3, Send(0));
    var s5 := Next(t, s4, Receive);
    assert FINDING[1..] == [Claim(0), Hash(0), Send(0), Receive] && FINDING[1..][1..] == [Hash(0), Send(0), Receive];
    assert FINDING[1..][1..][1..] == [Send(0), Receive] && FINDING[1..][1..][1..][1..] == [Receive];
    assert FINDING[1..][1..][1..][1..][1..] == [];
    assert Possible(t, s5, []) && Run(t, s5, []) == s5;
    assert Possible(t, s4, [Receive]) && Run(t, s4, [Receive]) == s5;
    assert Possible(t, s3, [Send(0), Receive]) && Run(t, s3, [Send(0), Receive]) == s5;
    assert Possible(t, s2, [Hash(0), Send(0), Receive]) && Run(t, s2, [Hash(0), Send(0), Receive]) == s5;
    assert Possible(t, s1, FINDING[1..]) && Run(t, s1, FINDING[1..]) == s5;
  }

  lemma {:induction false} NothingFoundYet(t: Task, s: Search, r: nat)
    requires Possible(t, s, Rounds(r)) && s.channel.None? && s.delivered.None?
    requires FindsMatch(t, s) && Honest(t, s)
    requires forall n: u64 :: n in Run(t, s, Rounds(r)).hashed ==> !Wins(t.w, t.b, t.difficulty, n)
    ensures Run(t, s, Rounds(r)).channel.None? && Run(t, s, Rounds(r)).delivered.None?
  {
    RunKeepsFinds(t, s, Rounds(r));
    RunKeepsHonest(t, s, Rounds(r));
  }

  lemma HashedAreTurns(r: nat, n: nat)
    requires n in HashedAt(r)
    ensures exists q :: 0 <= q < r && n == NonceAt(q)
  {
    if r > 0 {
      HashedIndex(r, 0);
      var q :| 0 <= q < |HashedAt(r)| && HashedAt(r)[q] == n;
      HashedIndex(r, q);
    }
  }

  /** The turns before r found nothing. */
  lemma TurnsFoundNothing(t: Task, s: Search, r: nat)
    requires BeforeTurn(s, 0) && s.channel.None? && s.delivered.None? && FindsMatch(t, s) && Honest(t, s)
    requires r <= FIRST_PASS && LosesBefore(t, r)
    ensures Possible(t, s, Rounds(r)) && BeforeTurn(Run(t, s, Rounds(r)), r)
    ensures Run(t, s, Rounds(r)).channel.None? && Run(t, s, Rounds(r)).delivered.None?
  {
    RoundsReach(t, s, r);
    forall n: u64 | n in Run(t, s, Rounds(r)).hashed ensures !Wins(t.w, t.b, t.difficulty, n) {
      HashedAreTurns(r, n);
      var q :| 0 <= q < r && n == NonceAt(q);
      assert LosesAt(t, q);
    }
    NothingFoundYet(t, s, r);
  }

  lemma TurnDelivers(t: Task, s: Search, r: nat)
    requires BeforeTurn(s, 0) && s.channel.None? && s.delivered.None? && FindsMatch(t, s) && Honest(t, s)
    requires r < FIRST_PASS && LosesBefore(t, r) && Wins(t.w, t.b, t.difficulty, NonceAt(r))
    ensures Possible(t, s, Rounds(r) + FINDING)
    ensures
      Run(t, s, Rounds(r) + FINDING).delivered == Some(Found(NonceAt(r), HashAt(t.w, t.b, NonceAt(r))))
  {
    TurnsFoundNothing(t, s, r);
    CountersStep(r);
    FindingRound(t, Run(t, s, Rounds(r)), LocalAt(r), BaseAt(r), HashedAt(r));
    RunSplits(t, s, Rounds(r), FINDING);
  }

  lemma NoEarlierWinner(t: Task, r: nat)
    requires r <= FIRST_PASS && forall n: u64 :: CHUNK <= n < CHUNK + r ==> !Wins(t.w, t.b, t.difficulty, n)
    ensures LosesBefore(t, r)
  {
    forall q | 0 <= q < r ensures LosesAt(t, q) {
      assert NonceAt(q) == CHUNK + q;
    }
  }

  /** Whatever wins can be delivered: over any number of workers there is a run from the start that
      delivers the least winning nonce from the first chunk on, with its hash. */
  lemma LeastWinnerIsDelivered(t: Task, workers: nat, nonce: u64, r: nat)
    requires 0 < workers && workers * 1000000000 < TWO_64
    requires nonce == CHUNK + r && Wins(t.w, t.b, t.difficulty, nonce)
    requires forall n: u64 :: CHUNK <= n < nonce ==> !Wins(t.w, t.b, t.difficulty, n)
    ensures Possible(t, Start(workers), Rounds(r) + FINDING)
    ensures Run(t, Start(workers), Rounds(r) + FINDING).delivered == Some(Found(nonce, HashAt(t.w, t.b, nonce)))
  {
    NoEarlierWinner(t, r);
    TurnDelivers(t, Start(workers), r);
  }

  /** The steps a worker still has in it once the stop channel is closed. */
  function StepsLeft(phase: Phase): nat {
    match phase
    case Done => 0
    case AtSelect => 1
    case AtSend(_) => 1
    case AtHash => 2
    case AtClaim => 3
  }

  function AllStepsLeft(workers: seq<Worker>): nat {
    if |workers| == 0 then 0 else AllStepsLeft(workers[..|workers| - 1]) + StepsLeft(workers[|workers| - 1].phase)
  }

  lemma {:induction false} OneWorkerLess(workers: seq<Worker>, i: nat, me: Worker)
    requires i < |workers|
    ensures AllStepsLeft(workers[i := me]) ==
            AllStepsLeft(workers) - StepsLeft(workers[i].phase) + StepsLeft(me.phase)
  {
    var m := |workers| - 1;
    if i < m {
      assert workers[i := me][..m] == workers[..m][i := me];
      OneWorkerLess(workers[..m], i, me);
    } else {
      assert workers[i := me][..m] == workers[..m];
    }
  }

  /** Once the stop channel is closed every step brings the search nearer its end: a worker that looks
      is done, and one in the middle of a turn finishes that turn. */
  lemma StoppedStep(t: Task, s: Search, step: Step)
    requires s.stopped && s.delivered.Some? && Enabled(s, step)
    ensures
      var s' := Next(t, s, step);
      && s'.stopped && s'.delivered == s.delivered
      && AllStepsLeft(s'.workers) < AllStepsLeft(s.workers)
      && (step.Look? ==> s'.workers[step.i].phase.Done?)
  {
    OneWorkerLess(s.workers, step.i, Next(t, s, step).workers[step.i]);
  }

  /** So every run after Close is short, whatever its order, and what was delivered stays. */
  lemma {:induction false} StoppedSearchEnds(t: Task, s: Search, steps: seq<Step>)
    requires s.stopped && s.delivered.Some? && Possible(t, s, steps)
    ensures |steps| + AllStepsLeft(Run(t, s, steps).workers) <= AllStepsLeft(s.workers)
    ensures Run(t, s, steps).delivered == s.delivered
    decreases |steps|
  {
    if |steps| > 0 {
      StoppedStep(t, s, steps[0]);
      StoppedSearchEnds(t, Next(t, s, steps[0]), steps[1..]);
    }
  }
}
