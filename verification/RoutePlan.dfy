/** The coordinator's search for a chain of workers that covers the layers behind its own. */
module RoutePlan {
  import opened Words

  datatype Worker = Worker(host: seq<Byte>, port: Word, start: Word, end: Word, hasOutput: bool, hasHidden: bool)

  /** What the coordinator knows about itself. */
  datatype Local = Local(nLayers: nat, start: nat, end: nat, hasOutput: bool, canOutputHead: bool)

  /** dist_worker_route_cmp: -1, 0 or 1. */
  function Compare(a: Worker, b: Worker): int {
    if a.start < b.start then -1
    else if a.start > b.start then 1
    else if a.hasOutput != b.hasOutput then (if a.hasOutput then -1 else 1)
    else if a.end > b.end then -1
    else if a.end < b.end then 1
    else 0
  }

  /** The comparison function is a consistent order, as qsort needs. */
  lemma CompareIsAnOrder(a: Worker, b: Worker, c: Worker)
    ensures Compare(a, b) == -Compare(b, a)
    ensures Compare(a, b) <= 0 && Compare(b, c) <= 0 ==> Compare(a, c) <= 0
    ensures Compare(a, b) == 0 <==> a.start == b.start && a.end == b.end && a.hasOutput == b.hasOutput
  {
  }

  /** What it prefers: the lower first layer, then a worker with the output head, then the
      longer range. */
  lemma ComparePrefers(a: Worker, b: Worker)
    ensures Compare(a, b) < 0 <==>
              || a.start < b.start
              || (a.start == b.start && a.hasOutput && !b.hasOutput)
              || (a.start == b.start && a.hasOutput == b.hasOutput && a.end > b.end)
  {
  }

  /** The registry as qsort leaves it: every admitted worker has a valid layer range. */
  ghost predicate Sorted(workers: seq<Worker>) {
    && (forall i :: 0 <= i < |workers| ==> workers[i].start <= workers[i].end)
    && (forall i, j :: 0 <= i < j < |workers| ==> Compare(workers[i], workers[j]) <= 0)
  }

  lemma SortedByStart(workers: seq<Worker>, i: nat, j: nat)
    requires Sorted(workers) && i <= j < |workers|
    ensures workers[i].start <= workers[j].start
  {
    if i < j { assert Compare(workers[i], workers[j]) <= 0; }
  }

  /** dist_worker_route_candidate_ok. */
  predicate CandidateOk(local: Local, w: Worker, last: nat) {
    var needsHidden := w.end < last || !w.hasOutput;
    && (needsHidden ==> w.hasHidden)
    && !(w.end >= last && !w.hasOutput && !local.canOutputHead)
  }

  /** A worker that stops short of the last layer has to return hidden states; one that
      reaches it returns logits itself, or hidden states to a coordinator with an output head. */
  lemma CandidateMeans(local: Local, w: Worker, last: nat)
    ensures CandidateOk(local, w, last) <==>
              if w.end < last then w.hasHidden else w.hasOutput || (w.hasHidden && local.canOutputHead)
  {
  }

  // --- What the search is for ---

  /** A chain of acceptable workers from layer `next` that stops short of `last`; the next
      layer it needs is `frontier`. */
  ghost predicate Reaches(local: Local, workers: seq<Worker>, c: seq<Worker>, next: nat, last: nat, frontier: nat) {
    if c == [] then frontier == next
    else
      && c[0] in workers && c[0].start == next && c[0].end < last && CandidateOk(local, c[0], last)
      && Reaches(local, workers, c[1..], c[0].end + 1, last, frontier)
  }

  /** A chain of acceptable workers that covers next..last. */
  ghost predicate Covers(local: Local, workers: seq<Worker>, c: seq<Worker>, next: nat, last: nat) {
    && c != []
    && c[0] in workers && c[0].start == next && CandidateOk(local, c[0], last)
    && if c[0].end >= last then |c| == 1 else Covers(local, workers, c[1..], c[0].end + 1, last)
  }

  /** At every hop no cover of the remaining layers starts with a worker that ranks before the
      one chosen. */
  ghost predicate Preferred(local: Local, workers: seq<Worker>, path: seq<Worker>, next: nat, last: nat) {
    path != [] ==>
      && (forall c :: Covers(local, workers, c, next, last) ==> c != [] && Compare(path[0], c[0]) <= 0)
      && Preferred(local, workers, path[1..], path[0].end + 1, last)
  }

  ghost predicate Coverable(local: Local, workers: seq<Worker>, next: nat, last: nat) {
    exists c :: Covers(local, workers, c, next, last)
  }

  /** `missing` is the furthest layer some acceptable chain gets to. */
  ghost predicate Furthest(local: Local, workers: seq<Worker>, next: nat, last: nat, missing: nat) {
    && (exists c :: Reaches(local, workers, c, next, last, missing))
    && (forall c, f: nat :: Reaches(local, workers, c, next, last, f) ==> f <= missing)
  }

  // --- How long a path can get ---

  function Before(workers: seq<Worker>, layer: nat): (n: nat)
    ensures n <= |workers|
  {
    if workers == [] then 0
    else Before(workers[..|workers| - 1], layer) + if workers[|workers| - 1].start < layer then 1 else 0
  }

  /** A worker that starts in [layer, later) is counted only by the later layer. */
  lemma {:induction false} BeforeGrows(workers: seq<Worker>, i: nat, layer: nat, later: nat)
    requires i < |workers| && layer <= workers[i].start < later
    ensures Before(workers, layer) < Before(workers, later)
  {
    if i < |workers| - 1 {
      BeforeGrows(workers[..|workers| - 1], i, layer, later);
    } else {
      BeforeMonotone(workers[..|workers| - 1], layer, later);
    }
  }

  lemma {:induction false} BeforeMonotone(workers: seq<Worker>, layer: nat, later: nat)
    requires layer <= later
    ensures Before(workers, layer) <= Before(workers, later)
  {
    if workers != [] { BeforeMonotone(workers[..|workers| - 1], layer, later); }
  }

  lemma RoomForOneMore(workers: seq<Worker>, i: nat, layer: nat)
    requires i < |workers| && layer <= workers[i].start
    ensures Before(workers, layer) < |workers|
  {
    BeforeGrows(workers, i, layer, workers[i].start + 1);
  }

  // --- The search ---

  /** Workers before `i` that start at `next` have been tried without success. */
  ghost predicate Tried(local: Local, workers: seq<Worker>, next: nat, last: nat, i: nat, missing: nat)
    requires i <= |workers|
  {
    && (forall c, k :: 0 <= k < i && Covers(local, workers, c, next, last) ==> c[0] != workers[k])
    && (forall c, f: nat, k :: 0 <= k < i && Reaches(local, workers, c, next, last, f) && c != [] && c[0] == workers[k]
          ==> f <= missing)
  }

  ghost predicate Progress(local: Local, workers: seq<Worker>, next: nat, last: nat, was: nat, missing: nat) {
    && missing >= was
    && (missing == was || exists c :: Reaches(local, workers, c, next, last, missing))
  }

  lemma NotThere(local: Local, workers: seq<Worker>, next: nat, last: nat, i: nat, missing: nat)
    requires i < |workers| && Tried(local, workers, next, last, i, missing)
    requires workers[i].start != next || !CandidateOk(local, workers[i], last)
    ensures Tried(local, workers, next, last, i + 1, missing)
  {
  }

  lemma ChildFailed(local: Local, workers: seq<Worker>, next: nat, last: nat, i: nat, missing: nat, child: nat)
    requires i < |workers| && Tried(local, workers, next, last, i, missing)
    requires var w := workers[i];
             && w.start == next && CandidateOk(local, w, last) && w.end < last
             && !Coverable(local, workers, w.end + 1, last) && Furthest(local, workers, w.end + 1, last, child)
    ensures Tried(local, workers, next, last, i + 1, if child > missing then child else missing)
    ensures exists c :: Reaches(local, workers, c, next, last, child)
  {
    var w := workers[i];
    var c :| Reaches(local, workers, c, w.end + 1, last, child);
    assert ([w] + c)[1..] == c;
    assert Reaches(local, workers, [w] + c, next, last, child);
  }

  lemma AllTried(local: Local, workers: seq<Worker>, next: nat, last: nat, i: nat, was: nat, missing: nat)
    requires Sorted(workers) && i <= |workers| && Tried(local, workers, next, last, i, missing)
    requires i < |workers| ==> workers[i].start > next
    requires missing >= was >= next && Progress(local, workers, next, last, was, missing)
    ensures !Coverable(local, workers, next, last)
    ensures forall c, f: nat :: Reaches(local, workers, c, next, last, f) ==> f <= missing
  {
    forall k | i <= k < |workers| ensures workers[k].start != next {
      SortedByStart(workers, i, k);
    }
    forall c ensures !Covers(local, workers, c, next, last) {
      if c != [] && c[0] in workers { var k := IndexOf(workers, c[0]); }
    }
    forall c, f: nat | Reaches(local, workers, c, next, last, f) ensures f <= missing {
      if c != [] { var k := IndexOf(workers, c[0]); }
    }
  }

  lemma IndexOf(workers: seq<Worker>, w: Worker) returns (k: nat)
    requires w in workers
    ensures k < |workers| && workers[k] == w
  {
    k :| k < |workers| && workers[k] == w;
  }

  lemma NothingTried(local: Local, workers: seq<Worker>, next: nat, last: nat, missing: nat)
    ensures Tried(local, workers, next, last, 0, missing) && Progress(local, workers, next, last, missing, missing)
  {
  }

  lemma OneHop(local: Local, workers: seq<Worker>, next: nat, last: nat, w: Worker)
    requires w in workers && w.start == next && CandidateOk(local, w, last) && w.end >= last
    ensures Covers(local, workers, [w], next, last) && Coverable(local, workers, next, last)
  {
    assert Covers(local, workers, [w], next, last);
  }

  /** What has not been tried yet does not rank before worker `i`. */
  lemma HopIsPreferred(local: Local, workers: seq<Worker>, next: nat, last: nat, i: nat, missing: nat, rest: seq<Worker>)
    requires Sorted(workers) && i < |workers| && Tried(local, workers, next, last, i, missing)
    requires Preferred(local, workers, rest, workers[i].end + 1, last)
    ensures Preferred(local, workers, [workers[i]] + rest, next, last)
  {
    var path := [workers[i]] + rest;
    assert path[1..] == rest;
    forall c | Covers(local, workers, c, next, last) ensures c != [] && Compare(path[0], c[0]) <= 0 {
      var k := IndexOf(workers, c[0]);
      assert k >= i;
      if k > i { assert Compare(workers[i], workers[k]) <= 0; }
    }
  }

  lemma NothingPreferred(local: Local, workers: seq<Worker>, next: nat, last: nat)
    ensures Preferred(local, workers, [], next, last)
  {
  }

  lemma OneMoreHop(local: Local, workers: seq<Worker>, next: nat, last: nat, w: Worker, c: seq<Worker>)
    requires w in workers && w.start == next && CandidateOk(local, w, last) && w.end < last
    requires Covers(local, workers, c, w.end + 1, last)
    ensures Covers(local, workers, [w] + c, next, last) && Coverable(local, workers, next, last)
  {
    assert ([w] + c)[1..] == c;
    assert Covers(local, workers, [w] + c, next, last);
  }

  lemma FailedIsFurthest(local: Local, workers: seq<Worker>, next: nat, last: nat, missing: nat)
    requires Progress(local, workers, next, last, next, missing)
    requires forall c, f: nat :: Reaches(local, workers, c, next, last, f) ==> f <= missing
    ensures Furthest(local, workers, next, last, missing)
  {
    assert Reaches(local, workers, [], next, last, next);
  }

  lemma MoreProgress(local: Local, workers: seq<Worker>, next: nat, last: nat, was: nat, missing: nat, child: nat)
    requires Progress(local, workers, next, last, was, missing)
    requires exists c :: Reaches(local, workers, c, next, last, child)
    ensures Progress(local, workers, next, last, was, if child > missing then child else missing)
  {
  }

  /** dist_route_search_workers. The caller's counters come in as `pathLen` and `missing`. */
  method Search(local: Local, workers: seq<Worker>, next: nat, last: nat, path: array<Worker>, pathLen: nat, missing: nat)
    returns (ok: bool, pathLen': nat, missing': nat)
    requires Sorted(workers) && path.Length == |workers|
    requires pathLen <= Before(workers, next) && missing >= next
    modifies path
    ensures pathLen <= pathLen' <= path.Length && path[..pathLen] == old(path[..pathLen])
    ensures ok <==> Coverable(local, workers, next, last)
    ensures ok ==> Covers(local, workers, path[pathLen..pathLen'], next, last)
    ensures ok ==> Preferred(local, workers, path[pathLen..pathLen'], next, last)
    ensures !ok ==> pathLen' == pathLen && Progress(local, workers, next, last, missing, missing')
    ensures !ok ==> forall c, f: nat :: Reaches(local, workers, c, next, last, f) ==> f <= missing'
    decreases if next <= last then last + 1 - next else 0
  {
    hide Compare, CandidateOk, Before, Covers, Reaches, Coverable, Furthest, Tried, Progress, Preferred;
    pathLen', missing' := pathLen, missing;
    NothingTried(local, workers, next, last, missing);
    var sawStart := false;
    var i := 0;
    while i < |workers|
      invariant 0 <= i <= |workers| && pathLen' == pathLen && path[..pathLen] == old(path[..pathLen])
      invariant Tried(local, workers, next, last, i, missing')
      invariant missing' >= missing && Progress(local, workers, next, last, missing, missing')
    {
      var w := workers[i];
      if w.start < next { NotThere(local, workers, next, last, i, missing'); i := i + 1; continue; }
      if w.start > next { break; }
      sawStart := true;
      if !CandidateOk(local, w, last) { NotThere(local, workers, next, last, i, missing'); i := i + 1; continue; }
      RoomForOneMore(workers, i, next);
      path[pathLen'] := w;
      pathLen' := pathLen' + 1;
      if w.end >= last {
        OneHop(local, workers, next, last, w);
        NothingPreferred(local, workers, w.end + 1, last);
        HopIsPreferred(local, workers, next, last, i, missing', []);
        assert path[pathLen..pathLen'] == [w] == [w] + [];
        return true, pathLen', missing';
      }
      BeforeGrows(workers, i, next, w.end + 1);
      var found, len, childMissing := Search(local, workers, w.end + 1, last, path, pathLen', w.end + 1);
      pathLen' := len;
      if found {
        OneMoreHop(local, workers, next, last, w, path[pathLen + 1..len]);
        HopIsPreferred(local, workers, next, last, i, missing', path[pathLen + 1..len]);
        assert path[..pathLen + 1] == old(path[..pathLen]) + [w];
        assert path[pathLen..len] == [w] + path[pathLen + 1..len];
        return true, pathLen', missing';
      }
      FailedIsFurthest(local, workers, w.end + 1, last, childMissing);
      ChildFailed(local, workers, next, last, i, missing', childMissing);
      MoreProgress(local, workers, next, last, missing, missing', childMissing);
      if childMissing > missing' { missing' := childMissing; }
      pathLen' := pathLen' - 1;
      i := i + 1;
    }
    AllTried(local, workers, next, last, i, missing, missing');
    if !sawStart && next > missing' { missing' := next; }
    ok := false;
  }

  // --- The plan ---

  datatype PlanResult = Incomplete(missing: nat) | NotAtZero | Plan(path: seq<Worker>)

  /** Consecutive layer ranges from `next` on. */
  ghost predicate Contiguous(path: seq<Worker>, next: nat) {
    forall i :: 0 <= i < |path| ==> path[i].start == if i == 0 then next else path[i - 1].end + 1
  }

  lemma {:induction false} CoverIsContiguous(local: Local, workers: seq<Worker>, c: seq<Worker>, next: nat, last: nat)
    requires Covers(local, workers, c, next, last)
    ensures Contiguous(c, next)
    ensures forall i :: 0 <= i < |c| ==> c[i] in workers && CandidateOk(local, c[i], last)
    ensures forall i :: 0 <= i < |c| ==> (c[i].end >= last <==> i == |c| - 1)
    decreases |c|
  {
    if c[0].end < last {
      CoverIsContiguous(local, workers, c[1..], c[0].end + 1, last);
      assert forall i :: 0 < i < |c| ==> c[i] == c[1..][i - 1];
    }
  }

  /** The planning part of dist_coordinator_build_route_plan: no hop at all when the
      coordinator can finish alone, otherwise the path found, or the furthest layer any
      chain of acceptable workers gets to. */
  method Build(local: Local, workers: seq<Worker>) returns (r: PlanResult)
    requires Sorted(workers) && local.nLayers >= 1
    ensures r.NotAtZero? <==> local.start != 0
    ensures var last := local.nLayers - 1;
            local.start == 0 ==>
              if local.end == last && (local.hasOutput || local.canOutputHead) then r == Plan([])
              else if Coverable(local, workers, local.end + 1, last) then
                r.Plan? && Covers(local, workers, r.path, local.end + 1, last) && Preferred(local, workers, r.path, local.end + 1, last)
              else r.Incomplete? && Furthest(local, workers, local.end + 1, last, r.missing)
    ensures r.Plan? ==> |r.path| <= |workers|
  {
    hide Compare, CandidateOk, Covers, Reaches, Coverable, Furthest, Progress, Sorted, Preferred;
    var last := local.nLayers - 1;
    if local.start != 0 { return NotAtZero; }
    if local.end == last && (local.hasOutput || local.canOutputHead) { return Plan([]); }
    if workers == [] {
      NobodyCovers(local, local.end + 1, last);
      return Incomplete(local.end + 1);
    }
    var path := new Worker[|workers|](_ => workers[0]);
    var ok, len, missing := Search(local, workers, local.end + 1, last, path, 0, local.end + 1);
    if ok { return Plan(path[0..len]); }
    FailedIsFurthest(local, workers, local.end + 1, last, missing);
    r := Incomplete(missing);
  }

  lemma NobodyCovers(local: Local, next: nat, last: nat)
    ensures !Coverable(local, [], next, last) && Furthest(local, [], next, last, next)
  {
    assert Reaches(local, [], [], next, last, next);
  }
}
