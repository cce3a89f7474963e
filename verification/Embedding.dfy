/** Building vectors for the chunks of an index in passes that can be bounded, cut short or fail at any step. */
module Embedding {
  import opened Wrappers

  type Vector = seq<real>

  /** The vector table: every row has its dimension. */
  datatype Table = Table(dim: nat, rows: map<nat, Vector>)

  /** The stored chunks, the vector table when there is one, and the recorded metadata. */
  datatype Index = Index(chunks: map<nat, string>, table: Option<Table>, model: string, dim: Option<nat>,
    complete: bool)

  /** How the next fallible step ends: well, with an error (or the process ending there), or past the deadline. */
  datatype Outcome = Fine | Fail | Late

  datatype Budget = Budget(maxChunks: int, maxDuration: int)

  datatype Pass = Pass(embedded: nat, remaining: nat)

  const EMBED_BATCH := 32
  const EMBED_WINDOW := 512

  predicate HasContent(text: string)
  {
    exists c | c in text :: c !in " \t\n\r"
  }

  function Rows(x: Index): map<nat, Vector>
  {
    if x.table.None? then map[] else x.table.value.rows
  }

  /** The chunks that need a vector and have none. */
  ghost function Missing(x: Index): set<nat>
  {
    set id | id in x.chunks && HasContent(x.chunks[id]) && id !in Rows(x)
  }

  /** The model gives every text a vector of the same, positive length. */
  ghost predicate Steady(embed: (string, string) -> Vector, model: string, dim: nat)
  {
    dim > 0 && forall text :: |embed(model, text)| == dim
  }

  /** Every stored vector is the embedding of its chunk by the recorded model. */
  ghost predicate Honest(x: Index, embed: (string, string) -> Vector)
  {
    forall id | id in Rows(x) :: id in x.chunks && Rows(x)[id] == embed(x.model, x.chunks[id])
  }

  /** No content-free chunk has a vector. */
  ghost predicate Pruned(x: Index)
  {
    forall id | id in Rows(x) && id in x.chunks :: HasContent(x.chunks[id])
  }

  /** What all passes work towards: a vector for every chunk with content, and for no other. */
  ghost function Full(chunks: map<nat, string>, embed: (string, string) -> Vector, model: string): map<nat, Vector>
  {
    map id | id in chunks && HasContent(chunks[id]) :: embed(model, chunks[id])
  }

  /** An honest index with nothing missing holds exactly that. */
  lemma CompleteIsFull(x: Index, embed: (string, string) -> Vector)
    requires Honest(x, embed) && Pruned(x)
    ensures Missing(x) == {} <==> Rows(x) == Full(x.chunks, embed, x.model)
  {
    if Missing(x) == {} {
      forall id | id in x.chunks && HasContent(x.chunks[id]) ensures id in Rows(x) {
        assert id !in Missing(x);
      }
    }
  }

  // ---------------------------------------------------------------- the order of work

  ghost function Elements(ids: seq<nat>): set<nat>
  {
    set id | id in ids
  }

  ghost predicate Ascending(ids: seq<nat>)
  {
    forall i, j | 0 <= i < j < |ids| :: ids[i] < ids[j]
  }

  ghost predicate Before(id: nat, later: set<nat>)
  {
    forall j | j in later :: id < j
  }

  /** The next chunks to embed, in order: all of them come before every other chunk that is missing. */
  ghost predicate Frontier(missing: set<nat>, ids: seq<nat>)
  {
    Ascending(ids) && (forall id | id in ids :: id in missing && Before(id, missing - Elements(ids)))
  }

  /** What was stored since `base` comes before everything still missing. */
  ghost predicate InOrder(stored: set<nat>, base: set<nat>, missing: set<nat>)
  {
    base <= stored && forall id | id in stored - base :: Before(id, missing)
  }

  function Stored(x: Index, id: nat, v: Vector): Index
    requires x.table.Some?
  {
    x.(table := Some(x.table.value.(rows := x.table.value.rows[id := v])))
  }

  lemma StoredIsNoLongerMissing(x: Index, id: nat, v: Vector)
    requires x.table.Some? && id in Missing(x)
    ensures var y := Stored(x, id, v);
      && Missing(y) == Missing(x) - {id} && |Missing(y)| == |Missing(x)| - 1
      && Rows(y).Keys == Rows(x).Keys + {id} && |Rows(y)| == |Rows(x)| + 1
  {
    var y := Stored(x, id, v);
    assert Missing(y) == Missing(x) - {id};
    assert Rows(y).Keys == Rows(x).Keys + {id};
    assert |Rows(y)| == |Rows(y).Keys| == |Rows(x).Keys| + 1;
  }

  lemma FrontierTail(missing: set<nat>, ids: seq<nat>)
    requires Frontier(missing, ids) && ids != []
    ensures Frontier(missing - {ids[0]}, ids[1..]) && Before(ids[0], missing - {ids[0]})
  {
    var first, rest := ids[0], ids[1..];
    assert first in ids && forall id | id in rest :: id in ids;
    assert forall id | id in rest :: first < id;
    var others := missing - Elements(ids);
    assert (missing - {first}) - Elements(rest) == others;
    forall j | j in missing - {first} ensures first < j {
      if j in ids {
        assert j in rest;
      } else {
        assert j in others;
      }
    }
  }

  lemma OrderGrows(stored: set<nat>, base: set<nat>, missing: set<nat>, id: nat)
    requires InOrder(stored, base, missing) && Before(id, missing - {id})
    ensures InOrder(stored + {id}, base, missing - {id})
  {
    forall x | x in (stored + {id}) - base ensures Before(x, missing - {id}) {
      if x != id {
        assert x in stored - base;
      }
    }
  }

  // ---------------------------------------------------------------- the store

  /** The table a pass starts from: none of another model's vectors, and none of content-free chunks. */
  ghost function Base(x: Index, model: string): map<nat, Vector>
  {
    if x.model != model then map[]
    else map id | id in Rows(x) && id in x.chunks && HasContent(x.chunks[id]) :: Rows(x)[id]
  }

  /** Where a batch ends: it is no longer than a batch, than what is pending, or than what the budget leaves. */
  function BatchEnd(start: nat, pending: nat, budget: Budget, embedded: nat): (end: nat)
    requires start < pending && !(0 < budget.maxChunks <= embedded)
    ensures start < end <= pending && end <= start + EMBED_BATCH
    ensures budget.maxChunks > 0 ==> embedded + end - start <= budget.maxChunks
    ensures end == pending || end == start + EMBED_BATCH ||
      (budget.maxChunks > 0 && embedded + end - start == budget.maxChunks)
  {
    var end := if start + EMBED_BATCH < pending then start + EMBED_BATCH else pending;
    if budget.maxChunks > 0 && start + budget.maxChunks - embedded < end then start + budget.maxChunks - embedded
    else end
  }

  class Store {
    var db: Index
    var script: seq<Outcome>
    var late: bool

    /** The next fallible step. */
    method Attempt() returns (ok: bool)
      modifies this`script, this`late
      ensures Fail !in old(script) ==> ok && Fail !in script
      ensures old(late) ==> late
    {
      ok := true;
      if script != [] {
        ok := script[0] != Fail;
        late := late || script[0] == Late;
        script := script[1..];
      }
    }

    method SetComplete(value: bool) returns (ok: bool)
      modifies this
      ensures db == if ok then old(db).(complete := value) else old(db)
      ensures Fail !in old(script) ==> ok && Fail !in script
    {
      ok := Attempt();
      if ok {
        db := db.(complete := value);
      }
    }

    method SetModel(model: string) returns (ok: bool)
      modifies this
      ensures db == if ok then old(db).(model := model) else old(db)
      ensures Fail !in old(script) ==> ok && Fail !in script
    {
      ok := Attempt();
      if ok {
        db := db.(model := model);
      }
    }

    method SetDim(dim: Option<nat>) returns (ok: bool)
      modifies this
      ensures db == if ok then old(db).(dim := dim) else old(db)
      ensures Fail !in old(script) ==> ok && Fail !in script
    {
      ok := Attempt();
      if ok {
        db := db.(dim := dim);
      }
    }

    /** Drops the table and then clears the metadata, one statement at a time. */
    method ResetVectors() returns (ok: bool)
      modifies this
      ensures ok ==> db == old(db).(table := None, dim := None, model := "", complete := false)
      ensures !ok ==> (db.chunks == old(db).chunks && (db == old(db) || db.table.None?) &&
        (db.complete ==> old(db).complete))
      ensures Fail !in old(script) ==> ok && Fail !in script
    {
      ok := Attempt();
      if !ok {
        return;
      }
      db := db.(table := None);
      ok := SetDim(None);
      if !ok {
        return;
      }
      ok := SetModel("");
      if !ok {
        return;
      }
      ok := SetComplete(false);
    }

    /** Creates the table for a dimension, dropping one of another dimension. */
    method EnableVectors(dim: nat, model: string) returns (ok: bool)
      modifies this
      ensures db.chunks == old(db).chunks && db.complete == old(db).complete
      ensures ok ==> db.model == model && db.dim == Some(dim) && db.table.Some?
      ensures old(db).table.None? ==> db.table.None? || db.table == Some(Table(dim, map[]))
      ensures old(db).table.None? && old(db).model == model ==> db.model == model
      ensures Fail !in old(script) ==> ok && Fail !in script
    {
      if db.dim.Some? && db.dim.value != dim {
        ok := Attempt();
        if !ok {
          return;
        }
        db := db.(table := None);
      }
      ok := Attempt();
      if !ok {
        return;
      }
      if db.table.None? {
        db := db.(table := Some(Table(dim, map[])));
      }
      ok := SetDim(Some(dim));
      if !ok {
        return;
      }
      ok := SetModel(model);
    }

    /** Removes the vectors of chunks that have no content. */
    method PruneContentFreeVectors() returns (ok: bool)
      modifies this
      ensures db == if ok && old(db).table.Some?
        then old(db).(table := Some(old(db).table.value.(rows := map id | id in Rows(old(db)) &&
               !(id in old(db).chunks && !HasContent(old(db).chunks[id])) :: Rows(old(db))[id])))
        else old(db)
      ensures Fail !in old(script) ==> ok && Fail !in script
    {
      if db.table.None? {
        return true;
      }
      ok := Attempt();
      if ok {
        var rows := db.table.value.rows;
        db := db.(table := Some(db.table.value.(rows := map id | id in rows &&
          !(id in db.chunks && !HasContent(db.chunks[id])) :: rows[id])));
      }
    }

    /** Stores one vector; the table refuses another dimension than its own. */
    method UpsertChunkVector(id: nat, v: Vector) returns (ok: bool)
      requires db.table.Some?
      modifies this
      ensures ok ==> |v| == old(db).table.value.dim
      ensures db == if ok then Stored(old(db), id, v) else old(db)
      ensures Fail !in old(script) && |v| == old(db).table.value.dim ==> ok && Fail !in script
    {
      ok := Attempt();
      ok := ok && |v| == db.table.value.dim;
      if ok {
        db := Stored(db, id, v);
      }
    }

    /** The chunks that need a vector, lowest identifier first, at most `limit` of them. */
    method ChunksWithoutVectors(limit: nat) returns (ok: bool, pending: seq<nat>)
      modifies this`script, this`late
      ensures ok ==> (Frontier(Missing(db), pending) &&
        |pending| == (if |Missing(db)| < limit then |Missing(db)| else limit))
      ensures Fail !in old(script) ==> ok && Fail !in script
    {
      ok := Attempt();
      pending := [];
      if !ok {
        return;
      }
      var rows := Rows(db);
      var left := set id | id in db.chunks && HasContent(db.chunks[id]) && id !in rows;
      assert left == Missing(db);
      hide Missing, Frontier, Elements, Before, Rows;
      EmptyFrontier(left);
      while |pending| < limit && left != {}
        invariant Frontier(Missing(db), pending) && left == Missing(db) - Elements(pending)
        invariant |pending| + |left| == |Missing(db)| && |pending| <= limit
        invariant ok && (Fail !in old(script) ==> Fail !in script)
        decreases left
      {
        var id := Least(left);
        FrontierSnoc(Missing(db), pending, left, id);
        pending := pending + [id];
        left := left - {id};
      }
    }

    /** Makes the store ready for a model: another model's vectors go, and so do those of content-free chunks. */
    method Prepare(embed: (string, string) -> Vector, model: string) returns (ok: bool)
      requires Honest(db, embed)
      modifies this
      ensures Honest(db, embed) && db.chunks == old(db).chunks
      ensures old(db).model == model ==> Base(old(db), model).Keys <= Rows(db).Keys
      ensures db.complete ==> db == old(db)
      ensures ok ==> db.model == model && !db.complete && Pruned(db) && Rows(db).Keys == Base(old(db), model).Keys
      ensures ok ==> (db.table == None || (old(db).model == model && old(db).table.Some? &&
        db.table.value.dim == old(db).table.value.dim))
      ensures Fail !in old(script) ==> ok && Fail !in script
    {
      ok := Attempt();
      if !ok {
        return;
      }
      ok := SetComplete(false);
      if !ok {
        return;
      }
      if db.table.Some? && db.model != model {
        ok := ResetVectors();
        if !ok {
          return;
        }
      }
      ok := SetModel(model);
      if !ok {
        return;
      }
      ok := PruneContentFreeVectors();
    }

    /** The state between two batches of a pass. */
    ghost predicate Working(embed: (string, string) -> Vector, model: string, base: set<nat>)
      reads this
    {
      Honest(db, embed) && Pruned(db) && db.model == model && InOrder(Rows(db).Keys, base, Missing(db))
    }

    /** Nothing will fail, and the model's vectors fit the table. */
    ghost predicate Smooth(embed: (string, string) -> Vector, model: string, dim: nat)
      reads this
    {
      Fail !in script && Steady(embed, model, dim) && Fits(db, dim)
    }

    /** Asks the model for the vectors of some chunks. */
    method Embed(ids: seq<nat>, embed: (string, string) -> Vector, model: string) returns (ok: bool, vecs: seq<Vector>)
      requires forall i | 0 <= i < |ids| :: ids[i] in db.chunks
      modifies this`script, this`late
      ensures ok ==> |vecs| == |ids| && forall i | 0 <= i < |ids| :: vecs[i] == embed(model, db.chunks[ids[i]])
      ensures Fail !in old(script) ==> ok && Fail !in script
    {
      ok := Attempt();
      var chunks := db.chunks;
      vecs := seq(|ids|, i requires 0 <= i < |ids| && ids[i] in chunks => embed(model, chunks[ids[i]]));
    }

    /** Stores the vectors of the next pending chunks one by one. */
    method StoreVectors(pending: seq<nat>, vecs: seq<Vector>, embed: (string, string) -> Vector, model: string,
        ghost base: set<nat>, ghost dim: nat)
      returns (ok: bool, stored: nat)
      requires |vecs| <= |pending| && Frontier(Missing(db), pending) && Working(embed, model, base) && db.table.Some?
      requires forall i | 0 <= i < |vecs| :: pending[i] in db.chunks && vecs[i] == embed(model, db.chunks[pending[i]])
      modifies this
      ensures Working(embed, model, base) && db.chunks == old(db).chunks && db.complete == old(db).complete
      ensures stored <= |vecs| && |Rows(db)| == |Rows(old(db))| + stored && |Missing(db)| == |Missing(old(db))| - stored
      ensures ok ==> stored == |vecs| && Frontier(Missing(db), pending[stored..])
      ensures old(Smooth(embed, model, dim)) ==> ok && Smooth(embed, model, dim)
    {
      stored, ok := 0, true;
      while stored < |vecs|
        invariant stored <= |vecs| && ok && db.table.Some? && db.chunks == old(db).chunks &&
          db.complete == old(db).complete
        invariant Working(embed, model, base) && Frontier(Missing(db), pending[stored..])
        invariant |Rows(db)| == |Rows(old(db))| + stored && |Missing(db)| == |Missing(old(db))| - stored
        invariant old(Smooth(embed, model, dim)) ==> Smooth(embed, model, dim)
      {
        hide Frontier, Missing, InOrder, Before, Honest, Pruned, Rows;
        StoredKeepsWorking(db, pending[stored..], vecs[stored], embed, base);
        ok := UpsertChunkVector(pending[stored], vecs[stored]);
        if !ok {
          return;
        }
        assert pending[stored..][1..] == pending[stored + 1..];
        stored := stored + 1;
      }
    }

    /** Embeds the next `n` pending chunks and stores their vectors. */
    method StoreBatch(pending: seq<nat>, n: nat, embed: (string, string) -> Vector, model: string,
        ghost base: set<nat>, ghost dim: nat)
      returns (ok: bool, stored: nat)
      requires 0 < n <= |pending| && Frontier(Missing(db), pending) && Working(embed, model, base)
      modifies this
      ensures Working(embed, model, base) && db.chunks == old(db).chunks && db.complete == old(db).complete
      ensures stored <= n && |Rows(db)| == |Rows(old(db))| + stored && |Missing(db)| == |Missing(old(db))| - stored
      ensures ok ==> stored == n && Frontier(Missing(db), pending[n..])
      ensures old(Smooth(embed, model, dim)) ==> ok && Smooth(embed, model, dim)
    {
      assert forall i | 0 <= i < n :: pending[i] in pending;
      PendingAreChunks(db, pending);
      hide Frontier, Missing, InOrder, Before, Honest, Pruned;
      stored := 0;
      var vecs;
      ok, vecs := Embed(pending[..n], embed, model);
      if !ok {
        return;
      }
      if db.table.None? {
        if |vecs[0]| == 0 {
          ok := false;
          return;
        }
        ghost var before := db;
        ok := EnableVectors(|vecs[0]|, model);
        EmptyTableChangesNothing(before, db, embed);
        if !ok {
          return;
        }
      }
      ok, stored := StoreVectors(pending, vecs, embed, model, base, dim);
    }

    predicate Spent(budget: Budget, embedded: nat)
      reads this
    {
      0 < budget.maxChunks <= embedded || (budget.maxDuration > 0 && late)
    }

    /** Works through one window of pending chunks, batch by batch, until it is done or the budget is spent. */
    method Window(pending: seq<nat>, embed: (string, string) -> Vector, model: string, budget: Budget, embedded: nat,
                  ghost base: set<nat>, ghost dim: nat)
      returns (ok: bool, total: nat)
      requires pending != [] && Frontier(Missing(db), pending) && Working(embed, model, base) &&
        !Spent(budget, embedded)
      modifies this
      ensures Working(embed, model, base) && db.chunks == old(db).chunks && db.complete == old(db).complete
      ensures embedded <= total && (budget.maxChunks > 0 ==> total <= budget.maxChunks)
      ensures |Rows(db)| == |Rows(old(db))| + (total - embedded) &&
        |Missing(db)| == |Missing(old(db))| - (total - embedded)
      ensures ok ==> total > embedded || (budget.maxDuration > 0 && late)
      ensures old(Smooth(embed, model, dim)) ==> ok && Smooth(embed, model, dim)
    {
      ok, total := true, embedded;
      var start := 0;
      while start < |pending|
        invariant Working(embed, model, base) && db.chunks == old(db).chunks && db.complete == old(db).complete && ok
        invariant embedded <= total && (budget.maxChunks > 0 ==> total <= budget.maxChunks)
        invariant |Rows(db)| == |Rows(old(db))| + (total - embedded) &&
          |Missing(db)| == |Missing(old(db))| - (total - embedded)
        invariant start == 0 ==> total == embedded
        invariant start > 0 ==> total > embedded
        invariant start < |pending| && !(0 < budget.maxChunks <= total) ==> Frontier(Missing(db), pending[start..])
        invariant old(Smooth(embed, model, dim)) ==> Smooth(embed, model, dim)
      {
        hide Frontier, Missing, Rows, Working, Fits, Steady;
        ok := Attempt();
        if !ok {
          return;
        }
        if Spent(budget, total) {
          break;
        }
        var end := BatchEnd(start, |pending|, budget, total);
        hide BatchEnd;
        var stored;
        ok, stored := StoreBatch(pending[start..], end - start, embed, model, base, dim);
        total := total + stored;
        if !ok {
          return;
        }
        assert pending[start..][end - start..] == pending[end..];
        start := start + EMBED_BATCH;
      }
    }

    /** One embedding pass. However it ends, at whatever step, every stored vector is its chunk's by the recorded
        model and the vectors of the model in use are all still there. */
    method BuildVectors(embed: (string, string) -> Vector, model: string, budget: Budget,
        ghost dim: nat) returns (ok: bool, pass: Pass)
      requires Honest(db, embed)
      modifies this
      ensures Honest(db, embed) && db.chunks == old(db).chunks
      ensures old(db).model == model ==> Base(old(db), model).Keys <= Rows(db).Keys
      ensures budget.maxChunks > 0 ==> pass.embedded <= budget.maxChunks
      ensures db.complete ==> db == old(db) || (Missing(db) == {} && Pruned(db) && db.model == model)
      ensures ok ==> (db.model == model && Pruned(db) && (db.complete <==> Missing(db) == {}) &&
        pass.remaining == |Missing(db)|)
      ensures ok ==> (pass.embedded == |Rows(db)| - |Base(old(db), model)| &&
        InOrder(Rows(db).Keys, Base(old(db), model).Keys, Missing(db)))
      ensures ok && budget.maxChunks <= 0 && budget.maxDuration <= 0 ==> Missing(db) == {}
      ensures Fail !in old(script) && Steady(embed, model, dim) && (old(db).model == model ==> Fits(old(db), dim)) ==>
        ok && Smooth(embed, model, dim)
    {
      pass := Pass(0, 0);
      ok := Prepare(embed, model);
      if !ok {
        return;
      }
      ghost var base := Base(old(db), model);
      assert Working(embed, model, base.Keys);
      assert |Rows(db)| == |base| by {
        assert |Rows(db).Keys| == |base.Keys|;
      }
      var embedded;
      ok, embedded := Drain(embed, model, budget, base.Keys, dim);
      pass := pass.(embedded := embedded);
      if !ok {
        return;
      }
      ok, pass := Conclude(pass);
    }

    /** Counts what is missing, and marks the table complete when nothing is. */
    method Conclude(before: Pass) returns (ok: bool, pass: Pass)
      requires !db.complete
      modifies this
      ensures db == old(db).(complete := db.complete) && pass.embedded == before.embedded
      ensures db.complete ==> Missing(db) == {}
      ensures ok ==> (db.complete <==> Missing(db) == {}) && pass.remaining == |Missing(db)|
      ensures Fail !in old(script) ==> ok && Fail !in script
    {
      pass := before;
      ok := Attempt();
      if !ok {
        return;
      }
      var rows := Rows(db);
      var left := set id | id in db.chunks && HasContent(db.chunks[id]) && id !in rows;
      assert left == Missing(db);
      pass := pass.(remaining := |left|);
      if pass.remaining == 0 {
        ok := SetComplete(true);
      }
    }

    /** Walks the backlog window by window until it is empty or the budget is spent. */
    method Drain(embed: (string, string) -> Vector, model: string, budget: Budget, ghost base: set<nat>, ghost dim: nat)
      returns (ok: bool, embedded: nat)
      requires Working(embed, model, base) && !db.complete
      modifies this
      ensures Working(embed, model, base) && db.chunks == old(db).chunks && !db.complete
      ensures budget.maxChunks > 0 ==> embedded <= budget.maxChunks
      ensures |Rows(db)| == |Rows(old(db))| + embedded
      ensures ok ==> Missing(db) == {} || budget.maxChunks > 0 || budget.maxDuration > 0
      ensures old(Smooth(embed, model, dim)) ==> ok && Smooth(embed, model, dim)
    {
      embedded := 0;
      while true
        invariant Working(embed, model, base) && db.chunks == old(db).chunks && !db.complete
        invariant budget.maxChunks > 0 ==> embedded <= budget.maxChunks
        invariant |Rows(db)| == |Rows(old(db))| + embedded
        invariant old(Smooth(embed, model, dim)) ==> Smooth(embed, model, dim)
        decreases |Missing(db)|, if budget.maxDuration > 0 && late then 0 else 1
      {
        hide Frontier, Missing, Rows, Working, Fits, Steady;
        ok := Attempt();
        if !ok {
          return;
        }
        if Spent(budget, embedded) {
          return;
        }
        var pending;
        ok, pending := ChunksWithoutVectors(EMBED_WINDOW);
        if !ok || pending == [] {
          return;
        }
        if !Spent(budget, embedded) {
          ok, embedded := Window(pending, embed, model, budget, embedded, base, dim);
          if !ok {
            return;
          }
        }
      }
    }
  }

  /** A pass over the store: the model it uses, and its budget. */
  datatype PassOver = PassOver(model: string, budget: Budget)

  /** Any number of bounded, interrupted or failing passes, each with a model of its own, and then one unbounded pass
      that succeeds leave what that one pass alone would: exactly its model's vector for every chunk with content, and
      the index marked complete. */
  method RepeatedPasses(s: Store, passes: seq<PassOver>, embed: (string, string) -> Vector, model: string)
    returns (ok: bool)
    requires Honest(s.db, embed)
    modifies s
    ensures Honest(s.db, embed) && s.db.chunks == old(s.db).chunks
    ensures ok ==> Rows(s.db) == Full(old(s.db).chunks, embed, model) && s.db.model == model && s.db.complete
  {
    for i := 0 to |passes|
      invariant Honest(s.db, embed) && s.db.chunks == old(s.db).chunks
    {
      var _, _ := s.BuildVectors(embed, passes[i].model, passes[i].budget, 0);
    }
    var pass;
    ok, pass := s.BuildVectors(embed, model, Budget(0, 0), 0);
    if ok {
      CompleteIsFull(s.db, embed);
    }
  }

  /** The table, when there is one, has the given dimension. */
  ghost predicate Fits(x: Index, dim: nat)
  {
    x.table.Some? ==> x.table.value.dim == dim
  }

  lemma EmptyTableChangesNothing(x: Index, y: Index, embed: (string, string) -> Vector)
    requires Rows(x) == Rows(y) && x.chunks == y.chunks && x.model == y.model
    ensures Missing(x) == Missing(y) && (Honest(x, embed) ==> Honest(y, embed)) && (Pruned(x) ==> Pruned(y))
  {}

  /** Storing the next vector keeps everything a pass relies on. */
  lemma StoredKeepsWorking(x: Index, ids: seq<nat>, v: Vector, embed: (string, string) -> Vector, base: set<nat>)
    requires x.table.Some? && ids != [] && Frontier(Missing(x), ids) && ids[0] in x.chunks &&
      v == embed(x.model, x.chunks[ids[0]])
    requires Honest(x, embed) && Pruned(x) && InOrder(Rows(x).Keys, base, Missing(x))
    ensures var y := Stored(x, ids[0], v);
      && Honest(y, embed) && Pruned(y) && InOrder(Rows(y).Keys, base, Missing(y)) && Frontier(Missing(y), ids[1..])
      && |Missing(y)| == |Missing(x)| - 1 && |Rows(y)| == |Rows(x)| + 1
  {
    FrontierTail(Missing(x), ids);
    FrontierHead(Missing(x), ids);
    MissingHasContent(x, ids[0]);
    hide Frontier, Missing, InOrder, Before;
    StoredIsNoLongerMissing(x, ids[0], v);
    OrderGrows(Rows(x).Keys, base, Missing(x), ids[0]);
  }

  lemma FrontierHead(missing: set<nat>, ids: seq<nat>)
    requires Frontier(missing, ids) && ids != []
    ensures ids[0] in missing
  {
    assert ids[0] in ids;
  }

  lemma MissingHasContent(x: Index, id: nat)
    requires id in Missing(x)
    ensures id in x.chunks && HasContent(x.chunks[id])
  {}

  lemma PendingAreChunks(x: Index, pending: seq<nat>)
    requires Frontier(Missing(x), pending)
    ensures forall i | 0 <= i < |pending| :: pending[i] in x.chunks
  {
    assert forall i | 0 <= i < |pending| :: pending[i] in pending;
  }

  method Least(s: set<nat>) returns (m: nat)
    requires s != {}
    ensures m in s && Before(m, s - {m})
  {
    m :| m in s;
    var left := s - {m};
    while left != {}
      invariant left <= s && m in s && m !in left && forall x | x in s && x !in left :: m <= x
      decreases left
    {
      var x :| x in left;
      if x < m {
        m := x;
      }
      left := left - {x};
    }
  }

  lemma EmptyFrontier(missing: set<nat>)
    ensures Frontier(missing, []) && missing - Elements([]) == missing
  {}

  lemma FrontierSnoc(missing: set<nat>, ids: seq<nat>, left: set<nat>, id: nat)
    requires Frontier(missing, ids) && left == missing - Elements(ids) && id in left && Before(id, left - {id})
    ensures Frontier(missing, ids + [id]) && left - {id} == missing - Elements(ids + [id])
  {
    var more := ids + [id];
    assert left - {id} == missing - Elements(more) by {
      assert Elements(more) == Elements(ids) + {id};
    }
    assert forall i | 0 <= i < |ids| :: ids[i] in ids && Before(ids[i], left);
    assert Ascending(more);
    forall x | x in more ensures x in missing && Before(x, left - {id}) {
      if x != id {
        assert x in ids;
      }
    }
  }
}
