/**
 Queries that read a module's own store by path, as the IBC and the upgrade module answer them, in
 a running application.
 */
module StoreQuery {
  import opened Bytes
  import opened Paths
  import opened Store
  import opened AppModel
  import opened AppProofs

  /** A module that answers at one query path, with what is stored under the path that the data
      spells; it refuses data that is not text or spells no path it knows. */
  datatype Reader = Reader(queryPath: Bytes, isText: Bytes -> bool, knows: Path -> bool)

  function PlanFor(r: Reader, data: Bytes, path: Path): QueryPlan {
    if Join(path) != r.queryPath then NotAnswered
    else if !r.isText(data) || !r.knows(Split(data)) then Refuses
    else Reads(Split(data))
  }

  /** The module reads, and no module before it takes the query on. */
  ghost predicate Asked(c: Config, a: AppState, i: nat, r: Reader, data: Bytes, path: Path, height: Height, prove: bool)
    requires WellFormedApp(c, a) && i < |c.modules|
  {
    && (forall j :: 0 <= j < i ==> c.modules[j].query(ImagesOf(a.stores), a.memory, data, path, height, prove).NotAnswered?)
    && c.modules[i].query(ImagesOf(a.stores), a.memory, data, path, height, prove) == PlanFor(r, data, path)
    && Join(path) == r.queryPath
  }

  lemma {:induction false} SkipsToReader(c: Config, a: AppState, from: nat, i: nat, r: Reader, data: Bytes, path: Path, height: Height, prove: bool)
    requires WellFormedApp(c, a) && from <= i < |c.modules| && Asked(c, a, i, r, data, path, height, prove)
    ensures QueryFrom(c, a, from, data, path, height, prove) == QueryFrom(c, a, i, data, path, height, prove)
    decreases i - from
  {
    if from < i {
      QueryStep(c, a, from, data, path, height, prove);
      SkipsToReader(c, a, from + 1, i, r, data, path, height, prove);
    }
  }

  /** In every run, a read that reaches such a module is an error exactly when the data is refused,
      the height is not committed yet or nothing is, or the tree of that height has nothing under
      the path. Otherwise it is the value stored there, alone if no proof is wanted; and if one is,
      with a proof under exactly the bytes asked for, which chains to the main root. Height 0 means
      the last commit. */
  lemma ReadIsProven(c: Config, calls: seq<Call>, i: nat, r: Reader, data: Bytes, path: Path, raw: nat, prove: bool)
    requires ValidConfig(c) && i < |c.modules|
    requires Asked(c, RunApp(c, calls), i, r, data, path, HeightFrom(raw), prove)
    ensures var a, n := RunApp(c, calls), CommitCount(calls);
      var response := QueryFrom(c, a, 0, data, path, HeightFrom(raw), prove);
      if !r.isText(data) || !r.knows(Split(data)) then response == QueryError
      else
        && AnswersRead(a.main.history, c.ids[i], a.stores[i].history, n, Split(data), raw, prove, response)
        && (prove && response != QueryError ==> response.proofOps.Some? && response.proofOps.value[0].key == data)
  {
    var a, height := RunApp(c, calls), HeightFrom(raw);
    SkipsToReader(c, a, 0, i, r, data, path, height, prove);
    QueryStep(c, a, i, data, path, height, prove);
    RunInStep(c, calls, i);
    ReadAtPosition(a.main, c.ids[i], a.stores[i], CommitCount(calls), Split(data), raw, prove);
    JoinUndoesSplit(data);
  }
}
