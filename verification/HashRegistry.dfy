/** Incremental hashing of state blocks (hash_utils.py, SubBlockHashRegistry).

    The registry keeps one digest per temperature block and re-hashes only blocks that a dirty
    key names.  SHA-256 and canonical JSON are parameters; that two given texts do not collide is
    a premise only where digests must tell states apart.  The theorems say exactly when the
    incremental root is the root a new registry would compute. */
module HashRegistry {
  import opened Common

  type Fields = map<string, Json>

  datatype Block = Hot | Warm | Cold | Control | Unclassified

  const BLOCKS: seq<Block> := [Hot, Warm, Cold, Control, Unclassified]

  const HOT_FIELDS: set<string> := {
    "llm_response", "llm_raw_output", "current_state", "token_usage", "thought_signature",
    "callback_result", "react_result", "total_tokens", "total_input_tokens", "total_output_tokens", "usage" }

  const WARM_FIELDS: set<string> := {
    "step_history", "messages", "query_results", "parallel_results", "branch_results", "state_history" }

  const COLD_FIELDS: set<string> := { "workflow_config", "partition_map", "segment_manifest", "final_state" }

  const CONTROL_PLANE_FIELDS: set<string> := {
    "ownerId", "workflowId", "idempotency_key", "execution_id", "quota_reservation_id",
    "workflow_config_s3_path", "state_s3_path", "partition_map_s3_path", "segment_manifest_s3_path",
    "final_state_s3_path", "segment_to_run", "total_segments", "loop_counter", "max_loop_iterations",
    "max_branch_iterations", "max_concurrency", "distributed_strategy", "distributed_mode", "MOCK_MODE",
    "AUTO_RESUME_HITP", "current_manifest_id", "llm_segments", "hitp_segments", "segment_type", "light_config" }

  /** classify_field_block. */
  function Classify(k: string): Block {
    if k in COLD_FIELDS then Cold
    else if k in WARM_FIELDS then Warm
    else if k in HOT_FIELDS then Hot
    else if k in CONTROL_PLANE_FIELDS then Control
    else Unclassified
  }

  /** The fields hashed into a block; unclassified fields go into their own block and into warm. */
  predicate Belongs(k: string, b: Block) {
    Classify(k) == b || (b.Warm? && Classify(k).Unclassified?)
  }

  function Extract(state: Fields, b: Block): Fields {
    map k | k in state && Belongs(k, b) :: state[k]
  }

  /** Cold, warm and hot fields take precedence over the control plane, in that order; a field in
      none of these sets is unclassified. */
  lemma ClassifyExact(k: string)
    ensures Classify(k).Cold? <==> k in COLD_FIELDS
    ensures Classify(k).Warm? <==> k in WARM_FIELDS && k !in COLD_FIELDS
    ensures Classify(k).Hot? <==> k in HOT_FIELDS && k !in WARM_FIELDS && k !in COLD_FIELDS
    ensures Classify(k).Control? <==> k in CONTROL_PLANE_FIELDS && k !in HOT_FIELDS && k !in WARM_FIELDS && k !in COLD_FIELDS
    ensures Classify(k).Unclassified? <==>
      k !in HOT_FIELDS && k !in WARM_FIELDS && k !in COLD_FIELDS && k !in CONTROL_PLANE_FIELDS
  {
  }

  /** Every field of a state is in its block, with its value; unclassified fields also in the warm
      one; and there is nothing else in any block. */
  lemma FieldsInBlocks(state: Fields, k: string, b: Block)
    ensures k in Extract(state, b) <==> k in state && (b == Classify(k) || (b == Warm && Classify(k) == Unclassified))
    ensures k in Extract(state, b) ==> Extract(state, b)[k] == state[k]
    ensures k in state ==> exists own :: k in Extract(state, own)
  {
    if k in state { assert k in Extract(state, Classify(k)); }
    hide Classify;
  }

  /** So equal blocks mean equal states. */
  lemma BlocksDetermineState(s: Fields, t: Fields)
    requires forall b: Block :: Extract(s, b) == Extract(t, b)
    ensures s == t
  {
    forall k ensures (k in s <==> k in t) && (k in s && k in t ==> s[k] == t[k]) {
      var b := Classify(k);
      assert Extract(s, b) == Extract(t, b);
      FieldsInBlocks(s, k, b);
      FieldsInBlocks(t, k, b);
    }
  }

  // ---------- Streaming a block into the hash ----------

  /** The primitives: SHA-256, canonical JSON, and the sorted order of a set of keys. */
  datatype Primitives = Primitives(
    sha: string -> string, canon: Json -> string, sorted: set<string> -> seq<string>,
    root: map<Block, string> -> string)

  ghost predicate Sorts(h: Primitives) {
    forall ks: set<string> :: Distinct(h.sorted(ks)) && forall k :: k in h.sorted(ks) <==> k in ks
  }

  function Piece(h: Primitives, k: string, v: Json): string {
    k + ":" + (h.canon(v) + ",")
  }

  function WireOf(h: Primitives, m: Fields, ks: seq<string>): string
    requires forall k :: k in ks ==> k in m
    decreases |ks|
  {
    if ks == [] then "" else Piece(h, ks[0], m[ks[0]]) + WireOf(h, m, ks[1..])
  }

  /** The bytes fed to the hash for a block. */
  function Wire(h: Primitives, m: Fields): string
    requires Sorts(h)
  {
    WireOf(h, m, h.sorted(m.Keys))
  }

  function BlockDigest(h: Primitives, m: Fields): string
    requires Sorts(h)
  {
    h.sha(Wire(h, m))
  }

  lemma {:induction false} WireAppends(h: Primitives, m: Fields, ks: seq<string>, k: string)
    requires k in m && forall j :: j in ks ==> j in m
    ensures WireOf(h, m, ks + [k]) == WireOf(h, m, ks) + Piece(h, k, m[k])
    decreases |ks|
  {
    if ks == [] {
      assert ks + [k] == [k] && [k][1..] == [];
    } else {
      assert (ks + [k])[0] == ks[0] && (ks + [k])[1..] == ks[1..] + [k];
      WireAppends(h, m, ks[1..], k);
    }
  }

  /** Feeds the sorted keys one after the other to the hasher. */
  method StreamingContentHash(h: Primitives, m: Fields) returns (digest: string)
    requires Sorts(h)
    ensures digest == BlockDigest(h, m)
  {
    var hasher := "";
    var keys := h.sorted(m.Keys);
    for i := 0 to |keys|
      invariant hasher == WireOf(h, m, keys[..i])
    {
      assert keys[..i + 1] == keys[..i] + [keys[i]];
      WireAppends(h, m, keys[..i], keys[i]);
      hasher := hasher + keys[i] + ":" + (h.canon(m[keys[i]]) + ",");
    }
    assert keys[..|keys|] == keys;
    digest := h.sha(hasher);
  }

  /** The bytes of a block, by position: each sorted key, a colon, its canonical value, a comma. */
  lemma {:induction false} WireSplits(h: Primitives, m: Fields, ks: seq<string>, ls: seq<string>)
    requires forall k :: k in ks ==> k in m
    requires forall k :: k in ls ==> k in m
    ensures WireOf(h, m, ks + ls) == WireOf(h, m, ks) + WireOf(h, m, ls)
    ensures |ls| == 1 ==> WireOf(h, m, ls) == ls[0] + ":" + h.canon(m[ls[0]]) + ","
    decreases |ks|
  {
    if |ls| == 1 { assert ls[1..] == []; }
    if ks == [] {
      assert ks + ls == ls;
    } else {
      assert (ks + ls)[0] == ks[0] && (ks + ls)[1..] == ks[1..] + ls;
      WireSplits(h, m, ks[1..], ls);
    }
  }

  /** No canonical text followed by a comma starts like that of another value: JSON values end
      where they end. */
  ghost predicate SelfDelimiting(h: Primitives) {
    forall v, w, r, s :: h.canon(v) + "," + r == h.canon(w) + "," + s ==> v == w && r == s
  }

  /** The hash does not confuse these two texts. */
  ghost predicate Distinguishes(h: Primitives, x: string, y: string) {
    h.sha(x) == h.sha(y) ==> x == y
  }

  ghost predicate ColonFree(m: Fields) {
    forall k :: k in m ==> ':' !in k
  }

  lemma {:induction false} WireParses(h: Primitives, m: Fields, ks: seq<string>, n: Fields, ls: seq<string>)
    requires SelfDelimiting(h)
    requires forall k :: k in ks ==> k in m && ':' !in k
    requires forall k :: k in ls ==> k in n && ':' !in k
    requires WireOf(h, m, ks) == WireOf(h, n, ls)
    ensures ks == ls && forall k :: k in ks ==> m[k] == n[k]
    decreases |ks|
  {
    if ks != [] && ls != [] {
      var k, l := ks[0], ls[0];
      var r, s := WireOf(h, m, ks[1..]), WireOf(h, n, ls[1..]);
      assert Piece(h, k, m[k]) + r == k + ":" + (h.canon(m[k]) + "," + r);
      assert Piece(h, l, n[l]) + s == l + ":" + (h.canon(n[l]) + "," + s);
      FirstMark(':', k, h.canon(m[k]) + "," + r, l, h.canon(n[l]) + "," + s);
      assert m[k] == n[l] && r == s;
      WireParses(h, m, ks[1..], n, ls[1..]);
      assert ks == [k] + ks[1..] && ls == [l] + ls[1..];
    }
  }

  /** Blocks whose keys hold no colon have different digests when they differ, unless the hash
      collides on their very texts. */
  lemma DigestsDistinguish(h: Primitives, m: Fields, n: Fields)
    requires Sorts(h) && SelfDelimiting(h) && ColonFree(m) && ColonFree(n)
    requires Distinguishes(h, Wire(h, m), Wire(h, n)) && BlockDigest(h, m) == BlockDigest(h, n)
    ensures m == n
  {
    var ks, ls := h.sorted(m.Keys), h.sorted(n.Keys);
    WireParses(h, m, ks, n, ls);
    assert forall k :: k in m <==> k in ks;
    assert forall k :: k in n <==> k in ls;
  }

  /** A colon in a key can make two different blocks feed the same bytes to the hash. */
  lemma ColonKeysCollide(h: Primitives, a: string, b: string, v: Json, w: Json)
    requires Sorts(h) && a != b && h.sorted({a, b}) == [a, b]
    ensures var long := a + ":" + (h.canon(v) + ",") + b;
      && map[a := v, b := w] != map[long := w]
      && BlockDigest(h, map[a := v, b := w]) == BlockDigest(h, map[long := w])
  {
    var long := a + ":" + (h.canon(v) + ",") + b;
    var m, n := map[a := v, b := w], map[long := w];
    assert |m.Keys| == 2 && |n.Keys| == 1;
    assert m.Keys == {a, b} && n.Keys == {long};
    var ls := h.sorted({long});
    assert ls == [long] by {
      assert |ls| > 1 ==> ls[0] != ls[1];
      assert long in ls && forall i :: 0 <= i < |ls| ==> ls[i] in ls;
    }
    assert [long][1..] == [] && [a, b][1..] == [b] && [b][1..] == [];
    assert WireOf(h, n, [long]) == Piece(h, long, w);
    assert WireOf(h, m, [b]) == Piece(h, b, w);
    assert WireOf(h, m, [a, b]) == Piece(h, a, v) + Piece(h, b, w);
    assert Piece(h, long, w) == Piece(h, a, v) + Piece(h, b, w);
  }

  // ---------- The registry ----------

  /** The block a dirty key marks: unclassified fields are hashed with warm. */
  function Marks(k: string): Block {
    if Classify(k).Unclassified? then Warm else Classify(k)
  }

  function DirtyBlocks(keys: set<string>): set<Block> {
    set k | k in keys :: Marks(k)
  }

  /** Re-hashed by a call: never hashed before, or dirty and not cold. */
  predicate Needs(hashes: map<Block, string>, dirty: set<Block>, b: Block) {
    b !in hashes || (b in dirty && !b.Cold?)
  }

  /** The digests after the blocks in done were treated. */
  function Refresh(h: Primitives, hashes: map<Block, string>, state: Fields, dirty: set<Block>,
                   done: set<Block>): map<Block, string>
    requires Sorts(h)
  {
    map b: Block | b in hashes || (b in done && Extract(state, b) != map[]) ::
      if b in done && Needs(hashes, dirty, b) && Extract(state, b) != map[] then BlockDigest(h, Extract(state, b))
      else hashes[b]
  }

  const ALL_BLOCKS: set<Block> := {Hot, Warm, Cold, Control, Unclassified}

  function After(h: Primitives, hashes: map<Block, string>, state: Fields, dirtyKeys: set<string>): map<Block, string>
    requires Sorts(h)
  {
    Refresh(h, hashes, state, DirtyBlocks(dirtyKeys), ALL_BLOCKS)
  }

  /** Treating one more block. */
  lemma RefreshStep(h: Primitives, hashes: map<Block, string>, state: Fields, dirty: set<Block>, done: set<Block>,
                    b: Block)
    requires Sorts(h)
    ensures var m, next := Refresh(h, hashes, state, dirty, done), Refresh(h, hashes, state, dirty, done + {b});
      && (b in done ==> next == m && (b !in m ==> Extract(state, b) == map[]))
      && (b !in done ==> (b in m <==> b in hashes))
      && (b !in done ==> next == if Needs(hashes, dirty, b) && Extract(state, b) != map[]
                                 then m[b := BlockDigest(h, Extract(state, b))] else m)
  {
    hide BlockDigest, Extract;
    if b in done { assert done + {b} == done; }
  }

  lemma RefreshNothing(h: Primitives, hashes: map<Block, string>, state: Fields, dirty: set<Block>)
    requires Sorts(h)
    ensures Refresh(h, hashes, state, dirty, {}) == hashes
  {
    hide Extract;
  }

  lemma RefreshUnneeded(h: Primitives, hashes: map<Block, string>, state: Fields, dirty: set<Block>, done: set<Block>)
    requires Sorts(h) && forall b: Block :: Needs(hashes, dirty, b) ==> b in done
    ensures Refresh(h, hashes, state, dirty, done) == Refresh(h, hashes, state, dirty, ALL_BLOCKS)
  {
    hide Extract, BlockDigest;
    assert forall b: Block :: b in ALL_BLOCKS by {
      forall b: Block ensures b in ALL_BLOCKS { AllAreBlocks(b); }
    }
  }

  lemma AllAreBlocks(b: Block)
    ensures b in ALL_BLOCKS
  {
    match b
    case Hot => case Warm => case Cold => case Control => case Unclassified =>
  }

  class SubBlockHashRegistry {
    const h: Primitives
    var blockHashes: map<Block, string>

    constructor (h: Primitives)
      ensures this.h == h && blockHashes == map[]
    {
      this.h := h;
      blockHashes := map[];
    }

    /** Hash one block if it has any field. */
    method HashBlock(state: Fields, b: Block) returns (d: Option<string>)
      requires Sorts(h)
      ensures d == if Extract(state, b) == map[] then None else Some(BlockDigest(h, Extract(state, b)))
    {
      var fields := Extract(state, b);
      if fields == map[] {
        return None;
      }
      var digest := StreamingContentHash(h, fields);
      return Some(digest);
    }

    method ComputeIncrementalRoot(state: Fields, dirtyKeys: set<string>)
      returns (root: string, hashes: map<Block, string>)
      requires Sorts(h)
      modifies this
      ensures blockHashes == hashes == After(h, old(blockHashes), state, dirtyKeys)
      ensures root == h.root(hashes)
    {
      hide BlockDigest, Extract, Refresh, DirtyBlocks, Sorts;
      var dirty := DirtyBlocks(dirtyKeys);
      ghost var before, done := blockHashes, {};
      RefreshNothing(h, before, state, dirty);
      var rest := dirty;
      while rest != {}
        invariant rest <= dirty && done == dirty - rest
        invariant blockHashes == Refresh(h, before, state, dirty, done)
      {
        var b :| b in rest;
        RefreshStep(h, before, state, dirty, done, b);
        if !(b.Cold? && b in blockHashes) {
          var d := HashBlock(state, b);
          if d.Some? {
            blockHashes := blockHashes[b := d.value];
          }
        }
        rest, done := rest - {b}, done + {b};
      }
      for i := 0 to |BLOCKS|
        invariant dirty <= done && forall j :: 0 <= j < i ==> BLOCKS[j] in done
        invariant blockHashes == Refresh(h, before, state, dirty, done)
      {
        var b := BLOCKS[i];
        RefreshStep(h, before, state, dirty, done, b);
        if b !in blockHashes {
          var d := HashBlock(state, b);
          if d.Some? {
            blockHashes := blockHashes[b := d.value];
          }
        }
        done := done + {b};
      }
      assert forall b: Block :: b in done by {
        forall b: Block ensures b in done { BlockIsListed(b); }
      }
      RefreshUnneeded(h, before, state, dirty, done);
      hashes := blockHashes;
      root := h.root(hashes);
    }

    /** Collect the blocks first, hash them independently, store what came out. */
    method ComputeIncrementalRootParallel(state: Fields, dirtyKeys: set<string>)
      returns (root: string, hashes: map<Block, string>)
      requires Sorts(h)
      modifies this
      ensures blockHashes == hashes == After(h, old(blockHashes), state, dirtyKeys)
      ensures root == h.root(hashes)
    {
      hide BlockDigest, Extract, Refresh, DirtyBlocks, Sorts;
      var dirty := DirtyBlocks(dirtyKeys);
      var toHash := BlocksToHash(dirty);
      ghost var before, done := blockHashes, {};
      RefreshNothing(h, before, state, dirty);
      for i := 0 to |toHash|
        invariant forall j :: 0 <= j < i ==> toHash[j] in done
        invariant forall j :: i <= j < |toHash| ==> toHash[j] !in done
        invariant blockHashes == Refresh(h, before, state, dirty, done)
      {
        RefreshStep(h, before, state, dirty, done, toHash[i]);
        var d := HashBlock(state, toHash[i]);
        if d.Some? {
          blockHashes := blockHashes[toHash[i] := d.value];
        }
        done := done + {toHash[i]};
      }
      RefreshUnneeded(h, before, state, dirty, done);
      hashes := blockHashes;
      root := h.root(hashes);
    }

    /** The list of blocks that need hashing, each once. */
    method BlocksToHash(dirty: set<Block>) returns (toHash: seq<Block>)
      ensures Distinct(toHash) && forall b: Block :: b in toHash <==> Needs(blockHashes, dirty, b)
    {
      toHash := [];
      var rest := dirty;
      while rest != {}
        invariant rest <= dirty && Distinct(toHash)
        invariant forall b: Block :: b in toHash <==> b in dirty - rest && Needs(blockHashes, dirty, b)
      {
        var b :| b in rest;
        assert b !in toHash;
        if !(b.Cold? && b in blockHashes) {
          toHash := toHash + [b];
        }
        rest := rest - {b};
      }
      for i := 0 to |BLOCKS|
        invariant Distinct(toHash) && forall b: Block :: b in toHash ==> Needs(blockHashes, dirty, b)
        invariant forall b: Block :: b in dirty && Needs(blockHashes, dirty, b) ==> b in toHash
        invariant forall j :: 0 <= j < i && Needs(blockHashes, dirty, BLOCKS[j]) ==> BLOCKS[j] in toHash
      {
        if BLOCKS[i] !in blockHashes && BLOCKS[i] !in toHash {
          toHash := toHash + [BLOCKS[i]];
        }
      }
      forall b: Block | Needs(blockHashes, dirty, b) ensures b in toHash { BlockIsListed(b); }
    }
  }

  lemma BlockIsListed(b: Block)
    ensures exists j :: 0 <= j < |BLOCKS| && BLOCKS[j] == b
  {
    match b
    case Hot => assert BLOCKS[0] == b;
    case Warm => assert BLOCKS[1] == b;
    case Cold => assert BLOCKS[2] == b;
    case Control => assert BLOCKS[3] == b;
    case Unclassified => assert BLOCKS[4] == b;
  }

  // ---------- Runs ----------

  datatype Call = Call(state: Fields, dirty: set<string>)

  /** The registry's digests after a sequence of calls. */
  function HashesAfter(h: Primitives, calls: seq<Call>): map<Block, string>
    requires Sorts(h)
  {
    if calls == [] then map[]
    else After(h, HashesAfter(h, calls[..|calls| - 1]), calls[|calls| - 1].state, calls[|calls| - 1].dirty)
  }

  /** What a new registry holds for a state. */
  function FreshHashes(h: Primitives, state: Fields): map<Block, string>
    requires Sorts(h)
  {
    HashesAfter(h, [Call(state, {})])
  }

  /** The contents of the block when the run last hashed it. */
  function LastHashed(calls: seq<Call>, b: Block): Option<Fields> {
    if calls == [] then None
    else
      var before, c := LastHashed(calls[..|calls| - 1], b), calls[|calls| - 1];
      var now := Extract(c.state, b);
      if now != map[] && (before.None? || (b in DirtyBlocks(c.dirty) && !b.Cold?)) then Some(now) else before
  }

  lemma {:induction false} DigestsAreOfLastHashed(h: Primitives, calls: seq<Call>, b: Block)
    requires Sorts(h)
    ensures var hashes, last := HashesAfter(h, calls), LastHashed(calls, b);
      (b in hashes <==> last.Some?) && (b in hashes ==> hashes[b] == BlockDigest(h, last.value))
  {
    if calls == [] {
    } else {
      hide BlockDigest, Extract, DirtyBlocks;
      DigestsAreOfLastHashed(h, calls[..|calls| - 1], b);
    }
  }

  /** Block b of the last state is as it was when it was last hashed. */
  predicate UpToDate(calls: seq<Call>, state: Fields, b: Block) {
    match LastHashed(calls, b)
    case None => Extract(state, b) == map[]
    case Some(m) => Extract(state, b) == m
  }

  ghost predicate AllColonFree(calls: seq<Call>) {
    forall i :: 0 <= i < |calls| ==> ColonFree(calls[i].state)
  }

  lemma {:induction false} LastHashedIsColonFree(calls: seq<Call>, b: Block)
    requires AllColonFree(calls) && LastHashed(calls, b).Some?
    ensures ColonFree(LastHashed(calls, b).value)
  {
    var init := calls[..|calls| - 1];
    assert ColonFree(calls[|calls| - 1].state);
    if LastHashed(init, b).Some? {
      LastHashedIsColonFree(init, b);
    }
  }

  /** What is needed to tell stale digests from fresh ones after a run: no collision between the
      texts of a block as last hashed and as it is now, nor between the two roots. */
  ghost predicate NoCollision(h: Primitives, calls: seq<Call>)
    requires Sorts(h) && calls != []
  {
    var state := calls[|calls| - 1].state;
    && SelfDelimiting(h) && AllColonFree(calls)
    && (forall b: Block :: LastHashed(calls, b).Some? ==>
          Distinguishes(h, Wire(h, LastHashed(calls, b).value), Wire(h, Extract(state, b))))
    && (h.root(HashesAfter(h, calls)) == h.root(FreshHashes(h, state)) ==>
          HashesAfter(h, calls) == FreshHashes(h, state))
  }

  lemma FreshDigest(h: Primitives, state: Fields, b: Block)
    requires Sorts(h)
    ensures b in FreshHashes(h, state) <==> Extract(state, b) != map[]
    ensures b in FreshHashes(h, state) ==> FreshHashes(h, state)[b] == BlockDigest(h, Extract(state, b))
  {
    hide BlockDigest, Extract, DirtyBlocks, HashesAfter;
    var one := [Call(state, {})];
    DigestsAreOfLastHashed(h, one, b);
    assert one[..|one| - 1] == [];
    assert LastHashed(one, b) == if Extract(state, b) != map[] then Some(Extract(state, b)) else None;
  }

  /** At block b the registry agrees with a new one when b is up to date, for any hash and any
      keys; and only then, unless texts collide. */
  lemma AgreesAtBlockIff(h: Primitives, calls: seq<Call>, b: Block)
    requires Sorts(h) && calls != []
    ensures var state := calls[|calls| - 1].state;
      && (UpToDate(calls, state, b) ==> AgreeAt(HashesAfter(h, calls), FreshHashes(h, state), b))
      && (NoCollision(h, calls) && AgreeAt(HashesAfter(h, calls), FreshHashes(h, state), b) ==> UpToDate(calls, state, b))
  {
    var state := calls[|calls| - 1].state;
    FreshDigest(h, state, b);
    DigestsAreOfLastHashed(h, calls, b);
    LastHashedIsNonEmpty(calls, b);
    var last := LastHashed(calls, b);
    if NoCollision(h, calls) && last.Some? {
      LastHashedIsColonFree(calls, b);
      assert ColonFree(state);
      ExtractIsColonFree(state, b);
      assert Distinguishes(h, Wire(h, last.value), Wire(h, Extract(state, b)));
      if BlockDigest(h, last.value) == BlockDigest(h, Extract(state, b)) {
        hide BlockDigest, Extract, DirtyBlocks, HashesAfter, NoCollision;
        DigestsDistinguish(h, last.value, Extract(state, b));
      }
    }
    hide BlockDigest, Extract, DirtyBlocks, HashesAfter, NoCollision, FreshHashes, LastHashed;
  }

  lemma ExtractIsColonFree(state: Fields, b: Block)
    requires ColonFree(state)
    ensures ColonFree(Extract(state, b))
  {
  }

  predicate AgreeAt(x: map<Block, string>, y: map<Block, string>, b: Block) {
    (b in x <==> b in y) && (b in x && b in y ==> x[b] == y[b])
  }

  /** The incremental root is the root of a new registry when every block is as it was when the
      run last hashed it; and only then, unless texts or roots collide. */
  lemma IncrementalRootIsFreshIff(h: Primitives, calls: seq<Call>)
    requires Sorts(h) && calls != []
    ensures var state := calls[|calls| - 1].state;
      && ((forall b: Block :: UpToDate(calls, state, b)) ==>
            HashesAfter(h, calls) == FreshHashes(h, state) && h.root(HashesAfter(h, calls)) == h.root(FreshHashes(h, state)))
      && (NoCollision(h, calls) && h.root(HashesAfter(h, calls)) == h.root(FreshHashes(h, state)) ==>
            forall b: Block :: UpToDate(calls, state, b))
  {
    var state := calls[|calls| - 1].state;
    var x, y := HashesAfter(h, calls), FreshHashes(h, state);
    if NoCollision(h, calls) && h.root(x) == h.root(y) { assert x == y; }
    hide UpToDate, HashesAfter, FreshHashes, NoCollision, AllColonFree, AgreeAt;
    SameDigests(x, y);
    forall b: Block
      ensures UpToDate(calls, state, b) ==> AgreeAt(x, y, b)
      ensures NoCollision(h, calls) && AgreeAt(x, y, b) ==> UpToDate(calls, state, b)
    {
      AgreesAtBlockIff(h, calls, b);
    }
  }

  lemma SameDigests(x: map<Block, string>, y: map<Block, string>)
    ensures x == y <==> forall b: Block :: AgreeAt(x, y, b)
  {
    if forall b: Block :: AgreeAt(x, y, b) {
      forall b: Block ensures b in x <==> b in y { assert AgreeAt(x, y, b); }
      assert x.Keys == y.Keys;
      forall b | b in x ensures x[b] == y[b] { assert AgreeAt(x, y, b); }
    }
  }

  // ---------- When callers keep the registry up to date ----------

  predicate SameAt(s: Fields, t: Fields, k: string) {
    (k in s <==> k in t) && (k in s && k in t ==> s[k] == t[k])
  }

  /** The next call names every changed key, leaves cold and unclassified fields alone once they
      were hashed, and empties no hashed block. */
  ghost predicate Covers(s: Fields, c: Call) {
    && (forall k :: !SameAt(s, c.state, k) ==> k in c.dirty)
    && (forall b: Block :: (b.Cold? || b.Unclassified?) && Extract(s, b) != map[] ==> Extract(c.state, b) == Extract(s, b))
    && (forall b: Block :: Extract(s, b) != map[] ==> Extract(c.state, b) != map[])
  }

  ghost predicate Covered(calls: seq<Call>) {
    |calls| <= 1 || (Covered(calls[..|calls| - 1]) && Covers(calls[|calls| - 2].state, calls[|calls| - 1]))
  }

  lemma UnchangedBlock(s: Fields, c: Call, b: Block)
    requires Covers(s, c) && b !in DirtyBlocks(c.dirty) && !b.Unclassified?
    ensures Extract(c.state, b) == Extract(s, b)
  {
    assert forall k :: k in c.dirty ==> Marks(k) in DirtyBlocks(c.dirty);
    assert forall k :: Belongs(k, b) ==> Marks(k) == b;
    hide Classify, Belongs;
    assert forall k :: Belongs(k, b) ==> SameAt(s, c.state, k);
  }

  lemma {:induction false} LastHashedIsNonEmpty(calls: seq<Call>, b: Block)
    ensures LastHashed(calls, b) != Some(map[])
  {
    if calls == [] {
    } else {
      LastHashedIsNonEmpty(calls[..|calls| - 1], b);
    }
  }

  lemma {:induction false} CoveredRunsAreUpToDate(calls: seq<Call>, b: Block)
    requires Covered(calls) && calls != []
    ensures UpToDate(calls, calls[|calls| - 1].state, b)
  {
    hide Extract, DirtyBlocks;
    if |calls| > 1 {
      var init, c := calls[..|calls| - 1], calls[|calls| - 1];
      CoveredRunsAreUpToDate(init, b);
      var s := init[|init| - 1].state;
      assert s == calls[|calls| - 2].state && Covers(s, c) && UpToDate(init, s, b);
      LastHashedIsNonEmpty(init, b);
      if b !in DirtyBlocks(c.dirty) && !b.Unclassified? { UnchangedBlock(s, c, b); }
    } else {
      assert calls[..|calls| - 1] == [] && LastHashed(calls[..|calls| - 1], b) == None;
    }
  }

  /** Callers that keep to the rules always get the fresh root, with any hash and any keys. */
  lemma CoveredRunHasFreshRoot(h: Primitives, calls: seq<Call>)
    requires Sorts(h) && calls != [] && Covered(calls)
    ensures HashesAfter(h, calls) == FreshHashes(h, calls[|calls| - 1].state)
    ensures h.root(HashesAfter(h, calls)) == h.root(FreshHashes(h, calls[|calls| - 1].state))
  {
    var last := calls[|calls| - 1].state;
    forall b: Block ensures UpToDate(calls, last, b) { CoveredRunsAreUpToDate(calls, b); }
    IncrementalRootIsFreshIff(h, calls);
  }

  /** A changed unclassified field leaves its own block stale although it is named dirty. */
  lemma UnclassifiedChangeIsStale(h: Primitives, k: string, v: Json, w: Json)
    requires Sorts(h) && Classify(k).Unclassified? && v != w
    ensures var calls := [Call(map[k := v], {}), Call(map[k := w], {k})];
      && !UpToDate(calls, map[k := w], Unclassified)
      && (NoCollision(h, calls) ==> h.root(HashesAfter(h, calls)) != h.root(FreshHashes(h, map[k := w])))
  {
    var first := [Call(map[k := v], {})];
    var calls := [Call(map[k := v], {}), Call(map[k := w], {k})];
    assert calls[..|calls| - 1] == first && first[..|first| - 1] == [];
    assert Extract(map[k := v], Unclassified) == map[k := v] && Extract(map[k := w], Unclassified) == map[k := w];
    assert map[k := v][k] == v;
    assert LastHashed(first, Unclassified) == Some(map[k := v]);
    assert Unclassified !in DirtyBlocks({k});
    assert LastHashed(calls, Unclassified) == Some(map[k := v]);
    assert map[k := w][k] == w;
    assert !UpToDate(calls, map[k := w], Unclassified);
    IncrementalRootIsFreshIff(h, calls);
  }
}
