/** The table builder of misctools/unicode-generator.ts: three stages, where equal blocks of 256
    code points share one block of stage 2. */
module UnicodeTables {

  const BLOCK_SIZE := 256
  const MAX_CODE_POINT := 0x10FFFF

  /** The properties of code points that a table records, with their notion of equality. */
  datatype Context<!Elem> = Context(get: nat -> Elem, eql: (Elem, Elem) -> bool)

  datatype Tables<Elem> = Tables(stage1: seq<nat>, stage2: seq<nat>, stage3: seq<Elem>)

  datatype Result<+T> = Success(value: T) | Failure(error: string)

  // ---------- stage 3: the distinct elements ----------

  /** `stage3.findIndex(item => eql(item, elem))`, or the length when there is none. */
  function FindIndex<Elem>(ctx: Context<Elem>, stage3: seq<Elem>, elem: Elem): (i: nat)
    ensures i <= |stage3|
    ensures i < |stage3| ==> ctx.eql(stage3[i], elem)
    ensures forall j :: 0 <= j < i ==> !ctx.eql(stage3[j], elem)
  {
    if stage3 == [] || ctx.eql(stage3[0], elem) then 0 else 1 + FindIndex(ctx, stage3[1..], elem)
  }

  /** Stage 3 after the code points below `n`. */
  ghost function Elements<Elem>(ctx: Context<Elem>, n: nat): (r: seq<Elem>)
    ensures |r| <= n
  {
    if n == 0 then [] else
      var before := Elements(ctx, n - 1);
      if FindIndex(ctx, before, ctx.get(n - 1)) < |before| then before else before + [ctx.get(n - 1)]
  }

  /** The index that stage 3 gives to code point `cp`. */
  ghost function IndexOf<Elem>(ctx: Context<Elem>, cp: nat): nat {
    FindIndex(ctx, Elements(ctx, cp), ctx.get(cp))
  }

  /** What the element at index `IndexOf(cp)` says about `cp`. */
  ghost predicate Stands<Elem(!new)>(ctx: Context<Elem>, elem: Elem, cp: nat) {
    elem == ctx.get(cp) || ctx.eql(elem, ctx.get(cp))
  }

  lemma {:induction false} ElementsGrow<Elem>(ctx: Context<Elem>, k: nat, n: nat)
    requires k <= n
    ensures Elements(ctx, k) <= Elements(ctx, n)
  {
    if k < n { ElementsGrow(ctx, k, n - 1); }
  }

  lemma IndexStands<Elem(!new)>(ctx: Context<Elem>, cp: nat, n: nat)
    requires cp < n
    ensures IndexOf(ctx, cp) < |Elements(ctx, n)| && Stands(ctx, Elements(ctx, n)[IndexOf(ctx, cp)], cp)
  {
    ElementsGrow(ctx, cp + 1, n);
  }

  // ---------- stage 2: the distinct blocks ----------

  /** Block `i` of the code points up to `last`, filled up with zeros. */
  ghost function BlockAt<Elem>(ctx: Context<Elem>, last: nat, i: nat): (b: seq<nat>)
    ensures |b| == BLOCK_SIZE
    ensures forall j :: 0 <= j < BLOCK_SIZE ==> b[j] == BlockElement(ctx, last, i * BLOCK_SIZE + j)
  {
    seq<nat>(BLOCK_SIZE, j requires 0 <= j < BLOCK_SIZE => BlockElement(ctx, last, i * BLOCK_SIZE + j))
  }

  ghost function BlockElement<Elem>(ctx: Context<Elem>, last: nat, cp: nat): nat {
    if cp <= last then IndexOf(ctx, cp) else 0
  }

  /** The different blocks among the first `n`. */
  ghost function Blocks<Elem>(ctx: Context<Elem>, last: nat, n: nat): set<seq<nat>> {
    if n == 0 then {} else Blocks(ctx, last, n - 1) + {BlockAt(ctx, last, n - 1)}
  }

  ghost function BlockCount(last: nat): nat {
    last / BLOCK_SIZE + 1
  }

  lemma SubsetSize<T>(s: set<T>, t: set<T>)
    requires s <= t
    ensures |s| <= |t|
  {
    assert t == s + (t - s);
  }

  lemma {:induction false} BlocksGrow<Elem>(ctx: Context<Elem>, last: nat, k: nat, n: nat)
    requires k <= n
    ensures Blocks(ctx, last, k) <= Blocks(ctx, last, n)
  {
    if k < n {
      BlocksGrow(ctx, last, k, n - 1);
    }
  }

  /** The tables have room: 16 bits hold every index. */
  ghost predicate Fits<Elem>(ctx: Context<Elem>, last: nat) {
    |Elements(ctx, last + 1)| <= 0x1_0000 && |Blocks(ctx, last, BlockCount(last))| <= 0x100
  }

  // ---------- the builder ----------

  /** Where the lookup of `cp` ends up in stage 2. */
  function Position(stage1: seq<nat>, cp: nat): nat
    requires cp / BLOCK_SIZE < |stage1|
  {
    stage1[cp / BLOCK_SIZE] + cp % BLOCK_SIZE
  }

  ghost predicate RecordedAt<Elem>(ctx: Context<Elem>, stage1: seq<nat>, stage2: seq<nat>, cp: nat)
    requires cp / BLOCK_SIZE < |stage1|
  {
    Position(stage1, cp) < |stage2| && stage2[Position(stage1, cp)] == IndexOf(ctx, cp)
  }

  /** The code points of the blocks in stage 1 can be looked up. */
  ghost predicate Recorded<Elem>(ctx: Context<Elem>, last: nat, stage1: seq<nat>, stage2: seq<nat>) {
    forall cp: nat :: cp <= last && cp / BLOCK_SIZE < |stage1| ==> RecordedAt(ctx, stage1, stage2, cp)
  }

  /** The block `b` begins at `k` in stage 2. */
  ghost predicate BlockIn(stage2: seq<nat>, k: nat, b: seq<nat>) {
    k + |b| <= |stage2| && stage2[k..k + |b|] == b
  }

  /** `blockMap` knows where the blocks of stage 2 begin. */
  ghost predicate Mapped(blockMap: map<seq<nat>, nat>, stage2: seq<nat>) {
    && |stage2| == BLOCK_SIZE * |blockMap|
    && forall b :: b in blockMap ==> |b| == BLOCK_SIZE && BlockIn(stage2, blockMap[b], b)
  }

  lemma NewKey(blockMap: map<seq<nat>, nat>, key: seq<nat>, k: nat)
    requires key !in blockMap
    ensures blockMap[key := k].Keys == blockMap.Keys + {key}
    ensures |blockMap[key := k]| == |blockMap[key := k].Keys| == |blockMap| + 1 == |blockMap.Keys| + 1
  {}

  lemma BlockStaysIn(stage2: seq<nat>, more: seq<nat>, k: nat, b: seq<nat>)
    requires BlockIn(stage2, k, b)
    ensures BlockIn(stage2 + more, k, b)
  {
    assert (stage2 + more)[k..k + |b|] == stage2[k..k + |b|];
  }

  lemma AppendedIsIn(stage2: seq<nat>, b: seq<nat>)
    ensures BlockIn(stage2 + b, |stage2|, b)
  {
    assert (stage2 + b)[|stage2|..] == b;
  }

  lemma BlockAfterNew(blockMap: map<seq<nat>, nat>, stage2: seq<nat>, key: seq<nat>, b: seq<nat>)
    requires Mapped(blockMap, stage2) && |key| == BLOCK_SIZE && b in blockMap[key := |stage2|]
    ensures |b| == BLOCK_SIZE && BlockIn(stage2 + key, blockMap[key := |stage2|][b], b)
  {
    if b == key {
      AppendedIsIn(stage2, key);
    } else {
      BlockStaysIn(stage2, key, blockMap[b], b);
    }
  }

  lemma MapNewBlock(blockMap: map<seq<nat>, nat>, stage2: seq<nat>, key: seq<nat>)
    requires Mapped(blockMap, stage2) && |key| == BLOCK_SIZE && key !in blockMap
    ensures Mapped(blockMap[key := |stage2|], stage2 + key)
  {
    NewKey(blockMap, key, |stage2|);
    forall b | b in blockMap[key := |stage2|] ensures |b| == BLOCK_SIZE && BlockIn(stage2 + key, blockMap[key := |stage2|][b], b) {
      BlockAfterNew(blockMap, stage2, key, b);
    }
  }

  /** Block |stage1|, of which `len` code points exist, is at `k`. */
  lemma RecordBlock<Elem>(ctx: Context<Elem>, last: nat, stage1: seq<nat>, stage2: seq<nat>, stage2': seq<nat>, k: nat, len: nat)
    requires Recorded(ctx, last, stage1, stage2) && stage2 <= stage2' && len <= BLOCK_SIZE
    requires len == BLOCK_SIZE || |stage1| * BLOCK_SIZE + len == last + 1
    requires BlockIn(stage2', k, BlockAt(ctx, last, |stage1|)[..len])
    ensures Recorded(ctx, last, stage1 + [k], stage2')
  {
    var n := |stage1|;
    forall cp: nat | cp <= last && cp / BLOCK_SIZE < n + 1 ensures RecordedAt(ctx, stage1 + [k], stage2', cp) {
      if cp / BLOCK_SIZE < n {
        assert RecordedAt(ctx, stage1, stage2, cp);
        assert stage2'[Position(stage1, cp)] == stage2[Position(stage1, cp)];
      } else {
        var j := cp % BLOCK_SIZE;
        assert cp == n * BLOCK_SIZE + j && j < len;
        assert stage2'[k..k + len][j] == BlockAt(ctx, last, n)[..len][j];
      }
    }
  }

  lemma KnownBlock(blockMap: map<seq<nat>, nat>, stage2: seq<nat>, key: seq<nat>, len: nat)
    requires Mapped(blockMap, stage2) && key in blockMap && len <= |key| && |blockMap| <= 0x100
    ensures BlockIn(stage2, blockMap[key], key[..len]) && blockMap[key] <= 0xffff
    ensures blockMap.Keys + {key} == blockMap.Keys
  {
    assert stage2[blockMap[key]..blockMap[key] + len] == stage2[blockMap[key]..blockMap[key] + |key|][..len];
  }

  /** There is room for 256 blocks. */
  lemma StageIsFull(blockMap: map<seq<nat>, nat>, stage2: seq<nat>)
    requires Mapped(blockMap, stage2)
    ensures |stage2| > 0xffff <==> |blockMap| + 1 > 0x100
  {}

  lemma NewBlock(blockMap: map<seq<nat>, nat>, stage2: seq<nat>, key: seq<nat>, len: nat)
    requires Mapped(blockMap, stage2) && key !in blockMap && len <= |key| == BLOCK_SIZE
    ensures blockMap[key := |stage2|].Keys == blockMap.Keys + {key}
    ensures |blockMap[key := |stage2|].Keys| == |blockMap| + 1
    ensures len == BLOCK_SIZE ==> Mapped(blockMap[key := |stage2|], stage2 + key[..len])
    ensures BlockIn(stage2 + key[..len], |stage2|, key[..len])
  {
    NewKey(blockMap, key, |stage2|);
    AppendedIsIn(stage2, key[..len]);
    if len == BLOCK_SIZE {
      assert key[..len] == key;
      MapNewBlock(blockMap, stage2, key);
    }
  }

  /** The block in the making holds the `len` code points from `start` on. */
  ghost predicate BlockSoFar<Elem>(ctx: Context<Elem>, block: seq<nat>, start: nat, len: nat) {
    && |block| == BLOCK_SIZE && len <= BLOCK_SIZE
    && (forall j :: 0 <= j < len ==> block[j] == IndexOf(ctx, start + j))
    && (forall j :: len <= j < BLOCK_SIZE ==> block[j] == 0)
  }

  lemma AddToBlock<Elem>(ctx: Context<Elem>, block: seq<nat>, start: nat, len: nat)
    requires BlockSoFar(ctx, block, start, len) && len < BLOCK_SIZE
    ensures BlockSoFar(ctx, block[len := IndexOf(ctx, start + len)], start, len + 1)
  {}

  lemma CompleteBlock<Elem>(ctx: Context<Elem>, last: nat, block: seq<nat>, i: nat, len: nat)
    requires BlockSoFar(ctx, block, i * BLOCK_SIZE, len) && i * BLOCK_SIZE + len <= last + 1
    requires len == BLOCK_SIZE || i * BLOCK_SIZE + len == last + 1
    ensures block == BlockAt(ctx, last, i)
  {
    var start := i * BLOCK_SIZE;
    forall j | 0 <= j < BLOCK_SIZE ensures block[j] == BlockElement(ctx, last, start + j) {}
  }

  /** Stages 1 and 2 and the map after some blocks. */
  ghost predicate TablesSoFar<Elem>(ctx: Context<Elem>, last: nat, stage1: seq<nat>, stage2: seq<nat>,
                                    blockMap: map<seq<nat>, nat>) {
    && Recorded(ctx, last, stage1, stage2)
    && (forall i :: 0 <= i < |stage1| ==> stage1[i] <= 0xffff)
    && blockMap.Keys == Blocks(ctx, last, |stage1|) && |blockMap.Keys| <= 0x100
  }

  ghost predicate IsStage3<Elem>(ctx: Context<Elem>, n: nat, stage3: seq<Elem>) {
    stage3 == Elements(ctx, n) && |stage3| <= 0x1_0000
  }

  lemma AddElement<Elem>(ctx: Context<Elem>, last: nat, cp: nat, stage3: seq<Elem>)
    requires IsStage3(ctx, cp, stage3) && cp <= last
    ensures var i := IndexOf(ctx, cp);
            && i == FindIndex(ctx, stage3, ctx.get(cp))
            && Elements(ctx, cp + 1) == (if i == |stage3| then stage3 + [ctx.get(cp)] else stage3)
            && (i > 0xffff <==> |Elements(ctx, cp + 1)| > 0x1_0000)
            && (i > 0xffff ==> !Fits(ctx, last))
  {
    ElementsGrow(ctx, cp + 1, last + 1);
  }

  lemma TooManyBlocks<Elem>(ctx: Context<Elem>, last: nat, n: nat)
    requires n <= BlockCount(last) && |Blocks(ctx, last, n)| > 0x100
    ensures !Fits(ctx, last)
  {
    BlocksGrow(ctx, last, n, BlockCount(last));
    SubsetSize(Blocks(ctx, last, n), Blocks(ctx, last, BlockCount(last)));
  }

  /** A block that begins. */
  ghost predicate IsBlank(block: seq<nat>) {
    |block| == BLOCK_SIZE && forall j :: 0 <= j < BLOCK_SIZE ==> block[j] == 0
  }

  method StartBlock() returns (block: array<nat>)
    ensures fresh(block) && block.Length == BLOCK_SIZE && IsBlank(block[..])
  {
    block := new nat[BLOCK_SIZE](_ => 0);
  }

  /** What holds before code point `cp` is dealt with. */
  ghost predicate Ready<Elem>(ctx: Context<Elem>, last: nat, cp: nat, stage1: seq<nat>, stage2: seq<nat>, stage3: seq<Elem>,
                              blockMap: map<seq<nat>, nat>, block: seq<nat>, blockLen: nat) {
    && TablesSoFar(ctx, last, stage1, stage2, blockMap)
    && IsStage3(ctx, cp, stage3)
    && (cp <= last ==> cp == |stage1| * BLOCK_SIZE + blockLen && blockLen < BLOCK_SIZE)
    && (cp <= last ==> BlockSoFar(ctx, block, |stage1| * BLOCK_SIZE, blockLen) && Mapped(blockMap, stage2))
    && (cp > last ==> |stage1| == BlockCount(last))
  }

  lemma ReadyAtFirst<Elem>(ctx: Context<Elem>, last: nat, block: seq<nat>)
    requires IsBlank(block)
    ensures Ready(ctx, last, 0, [], [], [], map[], block, 0)
  {
    NothingYet(ctx, last);
    EmptyBlock(ctx, block, 0);
  }

  lemma ReadyAtLast<Elem>(ctx: Context<Elem>, last: nat, stage1: seq<nat>, stage2: seq<nat>, stage3: seq<Elem>,
                          blockMap: map<seq<nat>, nat>, block: seq<nat>, blockLen: nat)
    requires Ready(ctx, last, last + 1, stage1, stage2, stage3, blockMap, block, blockLen)
    ensures Fits(ctx, last) && Correct(ctx, last, Tables(stage1, stage2, stage3))
  {
    AllDone(ctx, last, stage1, stage2, stage3, blockMap);
  }

  lemma ReadyForBlock<Elem>(ctx: Context<Elem>, last: nat, cp: nat, stage1: seq<nat>, stage2: seq<nat>, stage3: seq<Elem>,
                            blockMap: map<seq<nat>, nat>, block: seq<nat>, blocks: nat, len: nat)
    requires |stage1| == blocks + 1 && TablesSoFar(ctx, last, stage1, stage2, blockMap) && IsStage3(ctx, cp + 1, stage3)
    requires cp <= last && cp + 1 == blocks * BLOCK_SIZE + len && 0 < len <= BLOCK_SIZE
    requires len == BLOCK_SIZE || cp == last
    requires len == BLOCK_SIZE ==> Mapped(blockMap, stage2)
    requires IsBlank(block)
    ensures Ready(ctx, last, cp + 1, stage1, stage2, stage3, blockMap, block, 0)
  {
    EmptyBlock(ctx, block, (blocks + 1) * BLOCK_SIZE);
  }

  class Generator<!Elem(!new)> {
    const ctx: Context<Elem>
    var blockMap: map<seq<nat>, nat>

    constructor (ctx: Context<Elem>)
      ensures this.ctx == ctx && blockMap == map[]
    {
      this.ctx := ctx;
      blockMap := map[];
    }

    /** Gives `cp` its index in stage 3 and in the current block. */
    method AddCodePoint(ghost last: nat, cp: nat, stage3: seq<Elem>, block: array<nat>, ghost start: nat, blockLen: nat)
      returns (ok: bool, stage3': seq<Elem>)
      requires cp <= last && IsStage3(ctx, cp, stage3)
      requires blockLen < block.Length == BLOCK_SIZE && cp == start + blockLen
      requires BlockSoFar(ctx, block[..], start, blockLen)
      modifies block
      ensures !ok ==> !Fits(ctx, last)
      ensures ok ==> IsStage3(ctx, cp + 1, stage3') && BlockSoFar(ctx, block[..], start, blockLen + 1)
    {
      var elem := ctx.get(cp);
      var blockIdx := FindIndex(ctx, stage3, elem);
      AddElement(ctx, last, cp, stage3);
      stage3' := stage3;
      if blockIdx == |stage3| {
        stage3' := stage3 + [elem];
      }
      ok := blockIdx <= 0xffff;
      if ok {
        AddToBlock(ctx, block[..], start, blockLen);
        ghost var before := block[..];
        block[blockLen] := blockIdx;
        assert block[..] == before[blockLen := blockIdx];
      }
    }

    /** Gives the block in `key`, with `len` code points, its place in stage 2. */
    method FinishBlock(ghost last: nat, key: seq<nat>, len: nat, stage1: seq<nat>, stage2: seq<nat>)
      returns (ok: bool, stage1': seq<nat>, stage2': seq<nat>)
      requires TablesSoFar(ctx, last, stage1, stage2, blockMap) && Mapped(blockMap, stage2)
      requires key == BlockAt(ctx, last, |stage1|) && 0 < len <= BLOCK_SIZE
      requires |stage1| * BLOCK_SIZE + len <= last + 1
      requires len == BLOCK_SIZE || |stage1| * BLOCK_SIZE + len == last + 1
      modifies this
      ensures !ok ==> !Fits(ctx, last)
      ensures ok ==> TablesSoFar(ctx, last, stage1', stage2', blockMap) && |stage1'| == |stage1| + 1
      ensures ok && len == BLOCK_SIZE ==> Mapped(blockMap, stage2')
    {
      var stage2Idx: nat := 0;
      stage1', stage2' := stage1, stage2;
      if key in blockMap {
        stage2Idx := blockMap[key];
        KnownBlock(blockMap, stage2, key, len);
      } else {
        stage2Idx := |stage2|;
        StageIsFull(blockMap, stage2);
        NewBlock(blockMap, stage2, key, len);
        blockMap := blockMap[key := stage2Idx];
        stage2' := stage2 + key[..len];
      }
      ok := stage2Idx <= 0xffff;
      if ok {
        RecordBlock(ctx, last, stage1, stage2, stage2', stage2Idx, len);
        stage1' := stage1 + [stage2Idx];
        assert |blockMap.Keys| <= 0x100;
      } else {
        TooManyBlocks(ctx, last, |stage1| + 1);
      }
    }

    ghost predicate Before(last: nat, cp: nat, stage1: seq<nat>, stage2: seq<nat>, stage3: seq<Elem>, block: seq<nat>, blockLen: nat)
      reads this
    {
      Ready(ctx, last, cp, stage1, stage2, stage3, blockMap, block, blockLen)
    }

    /** Ends the block of code point `cp` and begins the next one. */
    method CloseBlock(ghost last: nat, ghost cp: nat, stage1: seq<nat>, stage2: seq<nat>, ghost stage3: seq<Elem>,
                      block: array<nat>, len: nat)
      returns (ok: bool, stage1': seq<nat>, stage2': seq<nat>, block': array<nat>)
      requires block.Length == BLOCK_SIZE && cp <= last && cp + 1 == |stage1| * BLOCK_SIZE + len
      requires 0 < len <= BLOCK_SIZE && (len == BLOCK_SIZE || cp == last)
      requires TablesSoFar(ctx, last, stage1, stage2, blockMap) && Mapped(blockMap, stage2)
      requires IsStage3(ctx, cp + 1, stage3)
      requires BlockSoFar(ctx, block[..], |stage1| * BLOCK_SIZE, len)
      modifies this
      ensures !ok ==> !Fits(ctx, last)
      ensures fresh(block') && block'.Length == BLOCK_SIZE
      ensures ok ==> Before(last, cp + 1, stage1', stage2', stage3, block'[..], 0)
    {
      // `block.fill(0, blockLen)`: the rest of the block is 0 already
      CompleteBlock(ctx, last, block[..], |stage1|, len);
      block' := StartBlock();
      ok, stage1', stage2' := FinishBlock(last, block[..], len, stage1, stage2);
      if ok {
        ReadyForBlock(ctx, last, cp, stage1', stage2', stage3, blockMap, block'[..], |stage1|, len);
      }
    }

    /** One turn of the loop, for code point `cp`. */
    method DealWith(ghost last: nat, cp: nat, isLast: bool, stage1: seq<nat>, stage2: seq<nat>, stage3: seq<Elem>,
                    block: array<nat>, blockLen: nat)
      returns (error: string, stage1': seq<nat>, stage2': seq<nat>, stage3': seq<Elem>, block': array<nat>, blockLen': nat)
      requires cp <= last && block.Length == BLOCK_SIZE && isLast == (cp == last)
      requires Before(last, cp, stage1, stage2, stage3, block[..], blockLen)
      modifies this, block
      ensures error != "" ==> !Fits(ctx, last)
      ensures error == "" ==> (block' == block || fresh(block')) && block'.Length == BLOCK_SIZE
      ensures error == "" ==> Before(last, cp + 1, stage1', stage2', stage3', block'[..], blockLen')
    {
      error, stage1', stage2', block', blockLen' := "", stage1, stage2, block, blockLen + 1;
      var fits, ok;
      fits, stage3' := AddCodePoint(last, cp, stage3, block, |stage1| * BLOCK_SIZE, blockLen);
      if !fits {
        error := "Block index too large";
      } else if blockLen' == BLOCK_SIZE || isLast {
        ok, stage1', stage2', block' := CloseBlock(last, cp, stage1, stage2, stage3', block, blockLen');
        blockLen' := 0;
        if !ok {
          error := "Stage2 index too large";
        }
      }
    }

    /** Builds the tables for the code points up to `last`. */
    method Generate(last: nat) returns (r: Result<Tables<Elem>>)
      requires blockMap == map[]
      modifies this
      ensures r.Success? <==> Fits(ctx, last)
      ensures r.Success? ==> Correct(ctx, last, r.value)
    {
      var stage1: seq<nat>, stage2: seq<nat>, stage3: seq<Elem> := [], [], [];
      var block := StartBlock();
      var blockLen := 0;
      ReadyAtFirst(ctx, last, block[..]);
      for cp := 0 to last + 1
        invariant fresh(block) && block.Length == BLOCK_SIZE
        invariant Before(last, cp, stage1, stage2, stage3, block[..], blockLen)
      {
        var error;
        error, stage1, stage2, stage3, block, blockLen := DealWith(last, cp, cp == last, stage1, stage2, stage3, block, blockLen);
        if error != "" {
          return Failure(error);
        }
      }
      ReadyAtLast(ctx, last, stage1, stage2, stage3, blockMap, block[..], blockLen);
      r := Success(Tables(stage1, stage2, stage3));
    }
  }

  lemma NothingYet<Elem>(ctx: Context<Elem>, last: nat)
    ensures TablesSoFar(ctx, last, [], [], map[]) && Mapped(map[], []) && IsStage3(ctx, 0, [])
  {}

  lemma EmptyBlock<Elem>(ctx: Context<Elem>, block: seq<nat>, start: nat)
    requires IsBlank(block)
    ensures BlockSoFar(ctx, block, start, 0)
  {}

  lemma AllDone<Elem>(ctx: Context<Elem>, last: nat, stage1: seq<nat>, stage2: seq<nat>, stage3: seq<Elem>,
                      blockMap: map<seq<nat>, nat>)
    requires TablesSoFar(ctx, last, stage1, stage2, blockMap) && IsStage3(ctx, last + 1, stage3)
    requires |stage1| == BlockCount(last)
    ensures Fits(ctx, last) && Correct(ctx, last, Tables(stage1, stage2, stage3))
  {}

  /** The tables hold the indices of all code points up to `last`, in 16 bits each. */
  ghost predicate Correct<Elem>(ctx: Context<Elem>, last: nat, t: Tables<Elem>) {
    && |t.stage1| == BlockCount(last)
    && Recorded(ctx, last, t.stage1, t.stage2)
    && IsStage3(ctx, last + 1, t.stage3)
    && (forall i :: 0 <= i < |t.stage1| ==> t.stage1[i] <= 0xffff)
  }

  /** `stage3[stage2[stage1[cp >> 8] + (cp & 255)]]` stands for what the context says about `cp`, for
      every code point, also in a last block that is not full. */
  lemma LookupIsGet<Elem(!new)>(ctx: Context<Elem>, last: nat, t: Tables<Elem>, cp: nat)
    requires Correct(ctx, last, t) && cp <= last
    ensures cp / 256 < |t.stage1| && t.stage1[cp / 256] + cp % 256 < |t.stage2|
    ensures var index := t.stage2[t.stage1[cp / 256] + cp % 256];
            index < |t.stage3| && Stands(ctx, t.stage3[index], cp)
  {
    assert RecordedAt(ctx, t.stage1, t.stage2, cp);
    IndexStands(ctx, cp, last + 1);
  }
}
