/** Loading a snapshot: the payload is checked, split into one shard per machine of the
    current route, and restored by the machines one after the other. */
module KvSnapshot {
  import opened Results
  import opened Words
  import opened KvSizes
  import opened KvFormat
  import opened KvRestore

  // --- Routes ---

  /** The machines' slices, in order, without gap or overlap, over all layers. */
  ghost predicate RouteOk(route: seq<Slice>, n: nat) {
    && route != []
    && (forall i :: 0 <= i < |route| ==> route[i].start <= route[i].end)
    && (forall i :: 0 <= i < |route| ==> route[i].start == NextLayer(route, i))
    && NextLayer(route, |route|) == n
  }

  /** First layer behind the first `i` slices. */
  function NextLayer(route: seq<Slice>, i: nat): nat
    requires i <= |route|
  {
    if i == 0 then 0 else route[i - 1].end + 1
  }

  /** dist_kv_route_validate: slice 0 is the coordinator's own. */
  method ValidateRoute(route: seq<Slice>, n: nat) returns (ok: bool)
    requires route != [] && n <= MAX && route[0].start <= route[0].end
    ensures ok <==> RouteOk(route, n)
  {
    hide RouteOk;
    if n == 0 || route[0].start != 0 || route[0].end >= n {
      NoRoute(route, n, 0);
      return false;
    }
    var prev := route[0].end;
    for i := 1 to |route|
      invariant prev == route[i - 1].end < n && ChainTo(route, i)
    {
      if route[i].start != prev + 1 || route[i].end < route[i].start || route[i].end >= n {
        NoRoute(route, n, i);
        return false;
      }
      prev := route[i].end;
    }
    RouteEnds(route, n);
    ok := prev + 1 == n;
  }

  /** The first `i` slices follow each other from layer 0 on. */
  ghost predicate ChainTo(route: seq<Slice>, i: nat)
    requires i <= |route|
  {
    forall j :: 0 <= j < i ==> route[j].start == NextLayer(route, j) && route[j].start <= route[j].end
  }

  lemma RouteEnds(route: seq<Slice>, n: nat)
    requires route != []
    ensures RouteOk(route, n) <==> ChainTo(route, |route|) && route[|route| - 1].end + 1 == n
  {
  }

  lemma NoRoute(route: seq<Slice>, n: nat, i: nat)
    requires i < |route|
    requires route[i].start != NextLayer(route, i) || route[i].end < route[i].start || route[i].end >= n
    ensures !RouteOk(route, n)
  {
    OutOfRange(route, n, i);
  }

  /** Every slice of a valid route ends inside the model. */
  lemma {:induction false} OutOfRange(route: seq<Slice>, n: nat, i: nat)
    requires i < |route|
    ensures RouteOk(route, n) ==> route[i].end < n
    decreases |route| - i
  {
    if i + 1 < |route| {
      OutOfRange(route, n, i + 1);
      assert RouteOk(route, n) ==> route[i + 1].start == NextLayer(route, i + 1);
    }
  }

  /** The shards of a snapshot along a route. */
  function Shards(sn: Snapshot, route: seq<Slice>): (r: seq<seq<Byte>>)
    requires forall i :: 0 <= i < |route| ==> Covers(sn, route[i])
    ensures |r| == |route|
  {
    seq(|route|, i requires 0 <= i < |route| => Shard(sn, route[i]))
  }

  lemma RouteCovers(sn: Snapshot, ratios: Ratios, route: seq<Slice>)
    requires SizesMatch(sn, ratios) && RouteOk(route, |ratios|) && |ratios| <= MAX
    ensures forall i :: 0 <= i < |route| ==> Covers(sn, route[i])
  {
    forall i | 0 <= i < |route| ensures Covers(sn, route[i]) { OutOfRange(route, |ratios|, i); }
  }

  // --- Loading ---

  datatype Loaded = Loaded(tokens: seq<Word>, logits: seq<Byte>, shards: seq<seq<Byte>>)

  /** Copies the bytes of a slice's layers from the payload, which is positioned behind the
      layers before. */
  method CopyLayers(b: seq<Byte>, l: Layout, ratios: Ratios, nComp: seq<Word>, nIndexComp: seq<Word>, s: Slice)
    returns (r: Result<(seq<Byte>, seq<Byte>)>)
    requires |ratios| == |nComp| == |nIndexComp| && s.start <= s.end < |ratios| && |b| < U64
    ensures match Cut(b, Sizes(l, ratios, nComp, nIndexComp)[s.start..s.end + 1])
            case Err => r.Err?
            case Ok(parts) => r.Ok? && r.value.0 == Concat(parts) && b == r.value.0 + r.value.1
  {
    ghost var sizes, parts := Sizes(l, ratios, nComp, nIndexComp)[s.start..s.end + 1], [];
    hide *;
    var rest, copied := b, [];
    NothingCopied(b, sizes);
    var il := s.start;
    while il <= s.end
      invariant s.start <= il <= s.end + 1 && |rest| <= |b| && Copied(b, sizes, il - s.start, parts, copied, rest)
    {
      ghost var k := il - s.start;
      var bytes := TensorBytes64(l, ratios[il], nComp[il], nIndexComp[il]);
      SliceSize(l, ratios, nComp, nIndexComp, s, il, bytes);
      if bytes.Overflow? || bytes.value > |rest| { CopyStops(b, sizes, k, parts, copied, rest); return Err; }
      CopyMore(b, sizes, k, parts, copied, rest);
      parts := parts + [rest[..bytes.value]];
      copied := copied + rest[..bytes.value];
      rest := rest[bytes.value..];
      il := il + 1;
    }
    CopyEnds(b, sizes, parts, copied, rest);
    r := Ok((copied, rest));
  }

  /** `copied` are the first `k` pieces of `b`. */
  ghost predicate Copied(b: seq<Byte>, sizes: seq<nat>, k: nat, parts: seq<seq<Byte>>, copied: seq<Byte>, rest: seq<Byte>) {
    PartsOf(b, sizes, k, parts, rest) && copied == Concat(parts) && b == copied + rest
  }

  lemma NothingCopied(b: seq<Byte>, sizes: seq<nat>)
    ensures Copied(b, sizes, 0, [], [], b)
  {
    NoParts();
  }

  /** The checked size is the layer's size, unless it exceeds 64 bits. */
  lemma SliceSize(l: Layout, ratios: Ratios, nComp: seq<Word>, nIndexComp: seq<Word>, s: Slice, il: nat, bytes: Checked)
    requires |ratios| == |nComp| == |nIndexComp| && s.start <= il <= s.end < |ratios|
    requires bytes == Exactly(TensorBytes(l, ratios[il], nComp[il], nIndexComp[il]))
    ensures var sizes := Sizes(l, ratios, nComp, nIndexComp)[s.start..s.end + 1];
            && |sizes| == s.end + 1 - s.start
            && if bytes.Overflow? then sizes[il - s.start] >= U64 else sizes[il - s.start] == bytes.value
  {
    hide TensorBytes;
  }

  lemma CopyStops(b: seq<Byte>, sizes: seq<nat>, k: nat, parts: seq<seq<Byte>>, copied: seq<Byte>, rest: seq<Byte>)
    requires Copied(b, sizes, k, parts, copied, rest) && k < |sizes| && sizes[k] > |rest|
    ensures Cut(b, sizes).Err?
  {
    hide Cut, Concat, Lengths;
    TooShort(b, sizes, k, parts);
  }

  lemma CopyMore(b: seq<Byte>, sizes: seq<nat>, k: nat, parts: seq<seq<Byte>>, copied: seq<Byte>, rest: seq<Byte>)
    requires Copied(b, sizes, k, parts, copied, rest) && k < |sizes| && sizes[k] <= |rest|
    ensures var piece, left := rest[..sizes[k]], rest[sizes[k]..];
            Copied(b, sizes, k + 1, parts + [piece], copied + piece, left)
  {
    hide Concat, Lengths;
    ConcatMore(parts, rest[..sizes[k]]);
    assert sizes[..k + 1] == sizes[..k] + [sizes[k]];
  }

  lemma CopyEnds(b: seq<Byte>, sizes: seq<nat>, parts: seq<seq<Byte>>, copied: seq<Byte>, rest: seq<Byte>)
    requires Copied(b, sizes, |sizes|, parts, copied, rest)
    ensures Cut(b, sizes) == Ok(parts) && copied == Concat(parts) && b == copied + rest
  {
    hide Cut, Concat, Lengths;
    AllParts(b, sizes, parts, rest);
  }

  /** dist_prepare_shard_from_session_payload: the shard's header, then its layers' bytes. */
  method PrepareShard(b: seq<Byte>, l: Layout, ratios: Ratios, nComp: seq<Word>, nIndexComp: seq<Word>, s: Slice)
    returns (r: Result<(seq<Byte>, seq<Byte>)>)
    requires |ratios| == |nComp| == |nIndexComp| <= MAX && s.start <= s.end < |ratios| && |b| < U64
    ensures var cut := Cut(b, Sizes(l, ratios, nComp, nIndexComp)[s.start..s.end + 1]);
            && r.Ok? == cut.Ok?
            && (r.Ok? ==> b == Concat(cut.value) + r.value.1 && r.value.0 == ShardBytes(l, nComp, nIndexComp, s, cut.value))
  {
    hide WordBytes, Sizes, Cut, Concat, LayerHeader;
    var copy := CopyLayers(b, l, ratios, nComp, nIndexComp, s);
    if copy.Err? { return Err; }
    r := Ok((WordBytes(LayerHeader(l, s.start, s.end))
             + (WordBytes(nComp[s.start..s.end + 1]) + (WordBytes(nIndexComp[s.start..s.end + 1]) + copy.value.0)),
             copy.value.1));
  }

  // --- The whole load ---

  /** The shards that a payload hands out along a route. */
  function LoadOf(b: seq<Byte>, rt: Runtime, route: seq<Slice>): Result<Loaded>
    requires |rt.ratios| <= MAX && RouteOk(route, |rt.ratios|)
  {
    match Parse(b, rt)
    case Err => Err
    case Ok(sn) =>
      WireInvertsParse(b, rt);
      RouteCovers(sn, rt.ratios, route);
      Ok(Loaded(sn.tokens, sn.logits, Shards(sn, route)))
  }

  /** One machine for every slice. */
  predicate Staffed(machines: seq<Machine>, route: seq<Slice>) {
    |machines| == |route| && forall i :: 0 <= i < |machines| ==> machines[i].Valid()
  }

  /** Every machine accepts its shard. */
  ghost predicate AllAccept(shards: seq<seq<Byte>>, machines: seq<Machine>, nTokens: nat, route: seq<Slice>)
    requires Staffed(machines, route) && |shards| == |route|
  {
    forall i :: 0 <= i < |route| ==> Accepts(shards[i], machines[i], nTokens, route[i])
  }

  /** What loading a payload has to deliver: shards that every machine accepts. */
  ghost function LoadResult(b: seq<Byte>, rt: Runtime, route: seq<Slice>, machines: seq<Machine>): Result<Loaded>
    requires |rt.ratios| <= MAX && RouteOk(route, |rt.ratios|) && Staffed(machines, route)
  {
    var l := LoadOf(b, rt, route);
    if l.Ok? && AllAccept(l.value.shards, machines, |l.value.tokens|, route) then l else Err
  }

  /** Shards made so far, from the layers whose tensors are `parts`. */
  ghost predicate ShardsSoFar(l: Layout, nComp: seq<Word>, nIndexComp: seq<Word>, route: seq<Slice>, i: nat,
                              parts: seq<seq<Byte>>, shards: seq<seq<Byte>>)
    requires i <= |route| && |nComp| == |nIndexComp| <= MAX && RouteOk(route, |nComp|)
  {
    && |parts| == NextLayer(route, i) <= |nComp| && |shards| == i
    && forall j :: 0 <= j < i ==> ShardMade(l, nComp, nIndexComp, route, j, parts, shards[j])
  }

  ghost predicate ShardMade(l: Layout, nComp: seq<Word>, nIndexComp: seq<Word>, route: seq<Slice>, j: nat,
                            parts: seq<seq<Byte>>, shard: seq<Byte>)
    requires j < |route| && |nComp| == |nIndexComp| <= MAX
  {
    && route[j].start <= route[j].end < |parts| <= |nComp|
    && shard == ShardBytes(l, nComp, nIndexComp, route[j], parts[route[j].start..route[j].end + 1])
  }

  lemma MoreShards(l: Layout, nComp: seq<Word>, nIndexComp: seq<Word>, route: seq<Slice>, i: nat,
                   parts: seq<seq<Byte>>, more: seq<seq<Byte>>, shards: seq<seq<Byte>>, shard: seq<Byte>)
    requires i < |route| && |nComp| == |nIndexComp| <= MAX && RouteOk(route, |nComp|)
    requires ShardsSoFar(l, nComp, nIndexComp, route, i, parts, shards)
    requires |more| == route[i].end + 1 - route[i].start && route[i].end < |nComp|
    requires shard == ShardBytes(l, nComp, nIndexComp, route[i], more)
    ensures ShardsSoFar(l, nComp, nIndexComp, route, i + 1, parts + more, shards + [shard])
  {
    assert route[i].start == NextLayer(route, i) == |parts|;
    hide ShardBytes, RouteOk, ShardMade;
    forall j | 0 <= j < i + 1 ensures ShardMade(l, nComp, nIndexComp, route, j, parts + more, (shards + [shard])[j]) {
      if j < i { ShardKept(l, nComp, nIndexComp, route, j, parts, more, shards[j]); }
      else { ShardAdded(l, nComp, nIndexComp, route, i, parts, more, shard); }
    }
  }

  lemma ShardKept(l: Layout, nComp: seq<Word>, nIndexComp: seq<Word>, route: seq<Slice>, j: nat,
                  parts: seq<seq<Byte>>, more: seq<seq<Byte>>, shard: seq<Byte>)
    requires j < |route| && |nComp| == |nIndexComp| <= MAX && |parts| + |more| <= |nComp|
    requires ShardMade(l, nComp, nIndexComp, route, j, parts, shard)
    ensures ShardMade(l, nComp, nIndexComp, route, j, parts + more, shard)
  {
    hide ShardBytes;
    assert (parts + more)[route[j].start..route[j].end + 1] == parts[route[j].start..route[j].end + 1];
  }

  lemma ShardAdded(l: Layout, nComp: seq<Word>, nIndexComp: seq<Word>, route: seq<Slice>, i: nat,
                   parts: seq<seq<Byte>>, more: seq<seq<Byte>>, shard: seq<Byte>)
    requires i < |route| && |nComp| == |nIndexComp| <= MAX && route[i].start == |parts|
    requires |more| == route[i].end + 1 - route[i].start && route[i].start <= route[i].end < |nComp|
    requires shard == ShardBytes(l, nComp, nIndexComp, route[i], more)
    ensures ShardMade(l, nComp, nIndexComp, route, i, parts + more, shard)
  {
    hide ShardBytes;
    assert (parts + more)[route[i].start..route[i].end + 1] == more;
  }

  /** One more shard. `sizes` are the layers' byte counts, `piece` the result of cutting. */
  lemma OneMoreShard(b: seq<Byte>, l: Layout, nComp: seq<Word>, nIndexComp: seq<Word>, route: seq<Slice>, sizes: seq<nat>,
                     i: nat, rest: seq<Byte>, shards: seq<seq<Byte>>, parts: seq<seq<Byte>>, more: seq<seq<Byte>>,
                     shard: seq<Byte>, left: seq<Byte>)
    requires |sizes| == |nComp| == |nIndexComp| <= MAX && RouteOk(route, |nComp|) && i < |route|
    requires route[i].start <= route[i].end < |nComp|
    requires ShardsSoFar(l, nComp, nIndexComp, route, i, parts, shards)
    requires PartsOf(b, sizes, NextLayer(route, i), parts, rest)
    requires Cut(rest, sizes[route[i].start..route[i].end + 1]) == Ok(more) && rest == Concat(more) + left
    requires shard == ShardBytes(l, nComp, nIndexComp, route[i], more)
    ensures |left| <= |rest| && ShardsSoFar(l, nComp, nIndexComp, route, i + 1, parts + more, shards + [shard])
    ensures PartsOf(b, sizes, NextLayer(route, i + 1), parts + more, left)
  {
    hide *;
    OnRoute(route, |nComp|, i);
    MoreParts(b, sizes, route[i].start, route[i].end + 1, parts, rest, more, left);
    MoreShards(l, nComp, nIndexComp, route, i, parts, more, shards, shard);
  }

  /** The state of the loop over shards before shard `i`. */
  ghost predicate SplitAt(b: seq<Byte>, l: Layout, nComp: seq<Word>, nIndexComp: seq<Word>, route: seq<Slice>, sizes: seq<nat>,
                          i: nat, parts: seq<seq<Byte>>, shards: seq<seq<Byte>>, rest: seq<Byte>)
  {
    && |sizes| == |nComp| == |nIndexComp| <= MAX && i <= |route| && RouteOk(route, |nComp|) && |rest| <= |b|
    && ShardsSoFar(l, nComp, nIndexComp, route, i, parts, shards)
    && PartsOf(b, sizes, NextLayer(route, i), parts, rest)
  }

  lemma SplitStarts(b: seq<Byte>, l: Layout, nComp: seq<Word>, nIndexComp: seq<Word>, route: seq<Slice>, sizes: seq<nat>)
    requires |sizes| == |nComp| == |nIndexComp| <= MAX && RouteOk(route, |nComp|)
    ensures SplitAt(b, l, nComp, nIndexComp, route, sizes, 0, [], [], b)
  {
    NothingSplit(b, l, nComp, nIndexComp, route, sizes);
  }

  lemma SplitSlice(b: seq<Byte>, l: Layout, nComp: seq<Word>, nIndexComp: seq<Word>, route: seq<Slice>, sizes: seq<nat>,
                   i: nat, parts: seq<seq<Byte>>, shards: seq<seq<Byte>>, rest: seq<Byte>)
    requires SplitAt(b, l, nComp, nIndexComp, route, sizes, i, parts, shards, rest) && i < |route|
    ensures |rest| <= |b| && route[i].start <= route[i].end < |sizes| == |nComp| == |nIndexComp| <= MAX
    ensures Cut(rest, sizes[route[i].start..route[i].end + 1]).Err? ==> Cut(b, sizes).Err?
  {
    hide Cut, PartsOf, ShardsSoFar, RouteOk;
    OnRoute(route, |nComp|, i);
    if Cut(rest, sizes[route[i].start..route[i].end + 1]).Err? {
      NotEnough(b, sizes, route[i].start, route[i].end + 1, parts, rest);
    }
  }

  lemma SplitMore(b: seq<Byte>, l: Layout, nComp: seq<Word>, nIndexComp: seq<Word>, route: seq<Slice>, sizes: seq<nat>,
                  i: nat, parts: seq<seq<Byte>>, shards: seq<seq<Byte>>, rest: seq<Byte>,
                  more: seq<seq<Byte>>, shard: seq<Byte>, left: seq<Byte>)
    requires SplitAt(b, l, nComp, nIndexComp, route, sizes, i, parts, shards, rest) && i < |route|
    requires route[i].start <= route[i].end < |sizes| == |nComp| == |nIndexComp| <= MAX
    requires Cut(rest, sizes[route[i].start..route[i].end + 1]) == Ok(more) && rest == Concat(more) + left
    requires shard == ShardBytes(l, nComp, nIndexComp, route[i], more)
    ensures SplitAt(b, l, nComp, nIndexComp, route, sizes, i + 1, parts + more, shards + [shard], left)
  {
    hide Cut, Concat, PartsOf, ShardsSoFar, RouteOk, ShardBytes, NextLayer;
    OneMoreShard(b, l, nComp, nIndexComp, route, sizes, i, rest, shards, parts, more, shard, left);
  }

  lemma SplitEnds(b: seq<Byte>, l: Layout, nComp: seq<Word>, nIndexComp: seq<Word>, route: seq<Slice>, sizes: seq<nat>,
                  parts: seq<seq<Byte>>, shards: seq<seq<Byte>>, rest: seq<Byte>)
    requires SplitAt(b, l, nComp, nIndexComp, route, sizes, |route|, parts, shards, rest)
    ensures Cut(b, sizes) == Ok(parts) && b == Concat(parts) + rest
  {
    hide Cut, Concat, PartsOf, ShardsSoFar, RouteOk;
    EndOfRoute(route, |nComp|);
    AllParts(b, sizes, parts, rest);
  }

  /** The machine of slice `j` accepts the shard made of the layers' tensors `parts`. */
  ghost predicate Restored(l: Layout, nComp: seq<Word>, nIndexComp: seq<Word>, route: seq<Slice>, j: nat,
                           parts: seq<seq<Byte>>, m: Machine, nTokens: nat)
    requires j < |route| && |nComp| == |nIndexComp| <= MAX && m.Valid()
  {
    && route[j].start <= route[j].end < |parts| <= |nComp|
    && Accepts(ShardBytes(l, nComp, nIndexComp, route[j], parts[route[j].start..route[j].end + 1]), m, nTokens, route[j])
  }

  ghost predicate AllRestored(l: Layout, nComp: seq<Word>, nIndexComp: seq<Word>, route: seq<Slice>,
                              parts: seq<seq<Byte>>, machines: seq<Machine>, nTokens: nat)
    requires |nComp| == |nIndexComp| <= MAX && Staffed(machines, route)
  {
    forall j :: 0 <= j < |route| ==> Restored(l, nComp, nIndexComp, route, j, parts, machines[j], nTokens)
  }

  /** The pieces cut so far are the first pieces of the whole cut. */
  lemma PartsBegin(b: seq<Byte>, sizes: seq<nat>, n: nat, parts: seq<seq<Byte>>, rest: seq<Byte>)
    requires PartsOf(b, sizes, n, parts, rest) && Cut(b, sizes).Ok?
    ensures n <= |sizes| && Cut(b, sizes).value[..n] == parts
  {
    hide Cut, Concat;
    var whole := Cut(b, sizes).value;
    CutIsPrefix(b, sizes);
    ConcatSplits(whole[..n], whole[n..]);
    assert whole == whole[..n] + whole[n..];
    var end := b[|Concat(whole)|..];
    assert Lengths(whole[..n]) == sizes[..n];
    CutWritten(parts, rest);
    CutWritten(whole[..n], Concat(whole[n..]) + end);
    assert b == Concat(whole[..n]) + (Concat(whole[n..]) + end);
  }

  /** The shard just made is the one that the whole cut gives, so its refusal is final. */
  lemma ShardIsFinal(b: seq<Byte>, l: Layout, nComp: seq<Word>, nIndexComp: seq<Word>, route: seq<Slice>, sizes: seq<nat>,
                     i: nat, parts: seq<seq<Byte>>, shards: seq<seq<Byte>>, rest: seq<Byte>, m: Machine, nTokens: nat)
    requires i < |route| && m.Valid() && SplitAt(b, l, nComp, nIndexComp, route, sizes, i + 1, parts, shards, rest)
    requires Cut(b, sizes).Ok?
    ensures |nComp| == |nIndexComp| <= MAX && |shards| == i + 1
    ensures Restored(l, nComp, nIndexComp, route, i, Cut(b, sizes).value, m, nTokens) <==> Accepts(shards[i], m, nTokens, route[i])
  {
    hide Cut, Concat, PartsOf, ShardBytes, RouteOk, Accepts;
    PartsBegin(b, sizes, NextLayer(route, i + 1), parts, rest);
    assert ShardMade(l, nComp, nIndexComp, route, i, parts, shards[i]);
    var whole := Cut(b, sizes).value;
    assert whole[route[i].start..route[i].end + 1] == parts[route[i].start..route[i].end + 1];
  }

  lemma AllShardsAreFinal(b: seq<Byte>, l: Layout, nComp: seq<Word>, nIndexComp: seq<Word>, route: seq<Slice>, sizes: seq<nat>,
                          parts: seq<seq<Byte>>, shards: seq<seq<Byte>>, rest: seq<Byte>, machines: seq<Machine>, nTokens: nat)
    requires SplitAt(b, l, nComp, nIndexComp, route, sizes, |route|, parts, shards, rest) && Staffed(machines, route)
    requires AcceptedFirst(shards, machines, nTokens, route, |route|)
    ensures |nComp| == |nIndexComp| <= MAX && AllRestored(l, nComp, nIndexComp, route, parts, machines, nTokens)
  {
    hide ShardBytes, Accepts, PartsOf, RouteOk, Cut;
    forall j | 0 <= j < |route| ensures Restored(l, nComp, nIndexComp, route, j, parts, machines[j], nTokens) {
      assert ShardMade(l, nComp, nIndexComp, route, j, parts, shards[j]);
    }
  }

  /** The first `i` machines have accepted their shards. */
  ghost predicate AcceptedFirst(shards: seq<seq<Byte>>, machines: seq<Machine>, nTokens: nat, route: seq<Slice>, i: nat)
    requires Staffed(machines, route)
  {
    i <= |route| && |shards| == i && forall j :: 0 <= j < i ==> Accepts(shards[j], machines[j], nTokens, route[j])
  }

  lemma OneMoreAccepted(shards: seq<seq<Byte>>, machines: seq<Machine>, nTokens: nat, route: seq<Slice>, i: nat, shard: seq<Byte>)
    requires Staffed(machines, route) && i < |route| && AcceptedFirst(shards, machines, nTokens, route, i)
    ensures machines[i].Valid()
    ensures Accepts(shard, machines[i], nTokens, route[i]) ==> AcceptedFirst(shards + [shard], machines, nTokens, route, i + 1)
  {
    hide Accepts;
  }

  lemma RefusedForGood(b: seq<Byte>, l: Layout, nComp: seq<Word>, nIndexComp: seq<Word>, route: seq<Slice>, sizes: seq<nat>,
                       i: nat, parts: seq<seq<Byte>>, shards: seq<seq<Byte>>, rest: seq<Byte>, machines: seq<Machine>, nTokens: nat)
    requires i < |route| && Staffed(machines, route) && SplitAt(b, l, nComp, nIndexComp, route, sizes, i + 1, parts, shards, rest)
    requires |shards| == i + 1 && machines[i].Valid() && !Accepts(shards[i], machines[i], nTokens, route[i])
    ensures |nComp| == |nIndexComp| <= MAX
    ensures Cut(b, sizes).Err? || !AllRestored(l, nComp, nIndexComp, route, Cut(b, sizes).value, machines, nTokens)
  {
    hide Accepts, Cut, Restored, PartsOf, ShardsSoFar, RouteOk;
    if Cut(b, sizes).Ok? { ShardIsFinal(b, l, nComp, nIndexComp, route, sizes, i, parts, shards, rest, machines[i], nTokens); }
  }

  /** One turn of the loop over shards: the shard is made and restored. */
  method SplitOne(ghost b: seq<Byte>, l: Layout, ratios: Ratios, nComp: seq<Word>, nIndexComp: seq<Word>, route: seq<Slice>,
                  ghost sizes: seq<nat>, i: nat, ghost parts: seq<seq<Byte>>, ghost shards: seq<seq<Byte>>, rest: seq<Byte>,
                  machines: seq<Machine>, nTokens: nat)
    returns (r: Result<(seq<Byte>, seq<Byte>)>, ghost more: seq<seq<Byte>>)
    requires |ratios| == |nComp| == |nIndexComp| <= MAX && |b| < U64 && i < |route| && sizes == Sizes(l, ratios, nComp, nIndexComp)
    requires Staffed(machines, route) && AcceptedFirst(shards, machines, nTokens, route, i)
    requires SplitAt(b, l, nComp, nIndexComp, route, sizes, i, parts, shards, rest)
    ensures r.Err? ==> Cut(b, sizes).Err? || !AllRestored(l, nComp, nIndexComp, route, Cut(b, sizes).value, machines, nTokens)
    ensures r.Ok? ==> SplitAt(b, l, nComp, nIndexComp, route, sizes, i + 1, parts + more, shards + [r.value.0], r.value.1)
                      && AcceptedFirst(shards + [r.value.0], machines, nTokens, route, i + 1)
  {
    hide *;
    SplitSlice(b, l, nComp, nIndexComp, route, sizes, i, parts, shards, rest);
    r := PrepareShard(rest, l, ratios, nComp, nIndexComp, route[i]);
    more := [];
    if r.Ok? {
      more := Cut(rest, sizes[route[i].start..route[i].end + 1]).value;
      SplitMore(b, l, nComp, nIndexComp, route, sizes, i, parts, shards, rest, more, r.value.0, r.value.1);
      var ok := RestoreNext(r.value.0, machines, nTokens, route, i, shards);
      if !ok {
        RefusedForGood(b, l, nComp, nIndexComp, route, sizes, i, parts + more, shards + [r.value.0], r.value.1, machines, nTokens);
        r := Err;
      }
    }
  }

  method RestoreNext(shard: seq<Byte>, machines: seq<Machine>, nTokens: nat, route: seq<Slice>, i: nat, ghost shards: seq<seq<Byte>>)
    returns (ok: bool)
    requires Staffed(machines, route) && i < |route| && AcceptedFirst(shards, machines, nTokens, route, i)
    ensures |shards| == i && machines[i].Valid()
    ensures ok <==> Accepts(shard, machines[i], nTokens, route[i])
    ensures ok ==> AcceptedFirst(shards + [shard], machines, nTokens, route, i + 1)
  {
    OneMoreAccepted(shards, machines, nTokens, route, i, shard);
    hide Accepts;
    ok := Restore(shard, machines[i], nTokens, route[i]);
  }

  /** The loop over shards: it succeeds exactly when the bytes suffice for every layer and
      every machine accepts its shard. */
  method Split(b: seq<Byte>, l: Layout, ratios: Ratios, nComp: seq<Word>, nIndexComp: seq<Word>, route: seq<Slice>,
               machines: seq<Machine>, nTokens: nat)
    returns (r: Result<(seq<seq<Byte>>, seq<Byte>)>)
    requires |ratios| == |nComp| == |nIndexComp| <= MAX && RouteOk(route, |ratios|) && |b| < U64 && Staffed(machines, route)
    ensures var sizes := Sizes(l, ratios, nComp, nIndexComp);
            var cut := Cut(b, sizes);
            && r.Ok? == (cut.Ok? && AllRestored(l, nComp, nIndexComp, route, cut.value, machines, nTokens))
            && (r.Ok? ==> b == Concat(cut.value) + r.value.1
                          && SplitAt(b, l, nComp, nIndexComp, route, sizes, |route|, cut.value, r.value.0, r.value.1))
  {
    ghost var sizes := Sizes(l, ratios, nComp, nIndexComp);
    hide *;
    ghost var parts := [];
    SplitStarts(b, l, nComp, nIndexComp, route, sizes);
    var shards, rest := [], b;
    assert AcceptedFirst(shards, machines, nTokens, route, 0) by { NoneAccepted(machines, nTokens, route); }
    for i := 0 to |route|
      invariant SplitAt(b, l, nComp, nIndexComp, route, sizes, i, parts, shards, rest)
      invariant AcceptedFirst(shards, machines, nTokens, route, i)
    {
      var one, more := SplitOne(b, l, ratios, nComp, nIndexComp, route, sizes, i, parts, shards, rest, machines, nTokens);
      if one.Err? { return Err; }
      shards, rest, parts := shards + [one.value.0], one.value.1, parts + more;
    }
    AllShardsAreFinal(b, l, nComp, nIndexComp, route, sizes, parts, shards, rest, machines, nTokens);
    SplitEnds(b, l, nComp, nIndexComp, route, sizes, parts, shards, rest);
    r := Ok((shards, rest));
  }

  lemma NoneAccepted(machines: seq<Machine>, nTokens: nat, route: seq<Slice>)
    requires Staffed(machines, route)
    ensures AcceptedFirst([], machines, nTokens, route, 0)
  {
  }

  /** `parts` are the first `n` pieces of `b` and `rest` is what is left. */
  ghost predicate PartsOf(b: seq<Byte>, sizes: seq<nat>, n: nat, parts: seq<seq<Byte>>, rest: seq<Byte>) {
    n <= |sizes| && Lengths(parts) == sizes[..n] && b == Concat(parts) + rest
  }

  lemma NothingSplit(b: seq<Byte>, l: Layout, nComp: seq<Word>, nIndexComp: seq<Word>, route: seq<Slice>, sizes: seq<nat>)
    requires |nComp| == |nIndexComp| <= MAX && RouteOk(route, |nComp|)
    ensures PartsOf(b, sizes, NextLayer(route, 0), [], b) && ShardsSoFar(l, nComp, nIndexComp, route, 0, [], [])
  {
  }

  lemma OnRoute(route: seq<Slice>, n: nat, i: nat)
    requires RouteOk(route, n) && i < |route|
    ensures NextLayer(route, i) == route[i].start <= route[i].end < n
    ensures NextLayer(route, i + 1) == route[i].end + 1 && NextLayer(route, |route|) == n
  {
    OutOfRange(route, n, i);
  }

  lemma EndOfRoute(route: seq<Slice>, n: nat)
    requires RouteOk(route, n)
    ensures NextLayer(route, |route|) == n
  {
  }

  lemma MoreParts(b: seq<Byte>, sizes: seq<nat>, from: nat, to: nat, parts: seq<seq<Byte>>, rest: seq<Byte>,
                  more: seq<seq<Byte>>, left: seq<Byte>)
    requires from <= to <= |sizes| && PartsOf(b, sizes, from, parts, rest)
    requires Cut(rest, sizes[from..to]) == Ok(more) && rest == Concat(more) + left
    ensures PartsOf(b, sizes, to, parts + more, left)
    ensures |left| <= |rest| && |more| == to - from
  {
    hide Cut, Concat, Lengths;
    assert Lengths(parts + more) == sizes[..to] by { MoreLengths(sizes, from, to, parts, rest, more); }
    assert b == Concat(parts + more) + left by {
      ConcatSplits(parts, more);
      Reassociate(Concat(parts), Concat(more), left);
    }
  }

  lemma MoreLengths(sizes: seq<nat>, from: nat, to: nat, parts: seq<seq<Byte>>, rest: seq<Byte>, more: seq<seq<Byte>>)
    requires from <= to <= |sizes| && Lengths(parts) == sizes[..from] && Cut(rest, sizes[from..to]) == Ok(more)
    ensures Lengths(parts + more) == sizes[..to]
  {
    hide Cut, Lengths;
    CutIsPrefix(rest, sizes[from..to]);
    LengthsSplit(parts, more);
    assert sizes[..to] == sizes[..from] + sizes[from..to];
  }

  lemma AllParts(b: seq<Byte>, sizes: seq<nat>, parts: seq<seq<Byte>>, rest: seq<Byte>)
    requires PartsOf(b, sizes, |sizes|, parts, rest)
    ensures Cut(b, sizes) == Ok(parts) && b == Concat(parts) + rest
  {
    hide Cut, Concat, Lengths;
    assert sizes[..|sizes|] == sizes;
    CutWritten(parts, rest);
  }

  lemma NotEnough(b: seq<Byte>, sizes: seq<nat>, from: nat, to: nat, parts: seq<seq<Byte>>, rest: seq<Byte>)
    requires from <= to <= |sizes| && PartsOf(b, sizes, from, parts, rest)
    requires Cut(rest, sizes[from..to]).Err?
    ensures Cut(b, sizes).Err?
  {
    hide Cut, Concat, Lengths, Total;
    ConcatLength(parts);
    CutFailsWhenShort(rest, sizes[from..to]);
    CutFailsWhenShort(b, sizes);
    TotalGrows(sizes, to);
    TotalSplits(sizes[..to], from);
    assert sizes[..to][..from] == sizes[..from] && sizes[..to][from..] == sizes[from..to];
  }

  /** ds4_dist_session_load_payload: accepts exactly the loadable payloads whose shards the
      machines of the route accept, and hands every machine its own shard. */
  method Load(b: seq<Byte>, rt: Runtime, route: seq<Slice>, machines: seq<Machine>) returns (r: Result<Loaded>)
    requires |b| < U64 && |rt.ratios| <= MAX && RouteOk(route, |rt.ratios|) && Staffed(machines, route)
    ensures r == LoadResult(b, rt, route, machines)
  {
    hide TakeWords, ParseLayout, Cut, Concat, RouteOk, Shards, ShardsSoFar, LayoutOk, PartsOf, AllAccept, AllRestored, Staffed;
    var n := |rt.ratios|;
    var layout := ParseLayout(b, rt);
    if layout.Err? { return Err; }
    var l := layout.value;
    var b1 := b[4 * SESSION_FIELDS..];
    var tokens := ReadWords(b1, l.tokenCount, TokenBound(rt));
    if tokens.Err? { return Err; }
    var b2 := b1[4 * l.tokenCount..];
    if |b2| < 4 * l.vocab { return Err; }
    var logits, b3 := b2[..4 * l.vocab], b2[4 * l.vocab..];
    var nComp := ReadWords(b3, n, l.compCap + 1);
    if nComp.Err? { return Err; }
    var nIndexComp := ReadWords(b3[4 * n..], n, l.compCap + 1);
    if nIndexComp.Err? { return Err; }
    var b4 := b3[4 * n..][4 * n..];
    var split := Split(b4, l, rt.ratios, nComp.value, nIndexComp.value, route, machines, l.tokenCount);
    ghost var cut := Cut(b4, Sizes(l, rt.ratios, nComp.value, nIndexComp.value));
    if cut.Ok? && |Concat(cut.value)| == |b4| {
      HandedOut(b, rt, route, machines, Snapshot(l, tokens.value, logits, nComp.value, nIndexComp.value, cut.value));
    }
    if split.Err? { return Err; }
    if |split.value.1| != 0 { return Err; }
    ShardsDone(b, rt, route, Snapshot(l, tokens.value, logits, nComp.value, nIndexComp.value, cut.value), split.value.0);
    r := Ok(Loaded(tokens.value, logits, split.value.0));
  }

  /** The machines are asked about the shards of the snapshot in the payload. */
  lemma HandedOut(b: seq<Byte>, rt: Runtime, route: seq<Slice>, machines: seq<Machine>, sn: Snapshot)
    requires |rt.ratios| <= MAX && RouteOk(route, |rt.ratios|) && Staffed(machines, route) && Parse(b, rt) == Ok(sn)
    ensures |sn.nComp| == |sn.nIndexComp| == |rt.ratios| && LoadOf(b, rt, route).Ok?
    ensures AllAccept(LoadOf(b, rt, route).value.shards, machines, |sn.tokens|, route)
            <==> AllRestored(sn.layout, sn.nComp, sn.nIndexComp, route, sn.tensors, machines, |sn.tokens|)
  {
    hide Parse, ShardBytes, Wire, Loadable, RouteOk, Accepts;
    WireInvertsParse(b, rt);
    LoadableSizes(sn, rt);
    RouteCovers(sn, rt.ratios, route);
    forall j | 0 <= j < |route|
      ensures Restored(sn.layout, sn.nComp, sn.nIndexComp, route, j, sn.tensors, machines[j], |sn.tokens|)
              <==> Accepts(Shards(sn, route)[j], machines[j], |sn.tokens|, route[j])
    {
      assert Covers(sn, route[j]);
    }
  }

  lemma ShardsDone(b: seq<Byte>, rt: Runtime, route: seq<Slice>, sn: Snapshot, shards: seq<seq<Byte>>)
    requires |rt.ratios| <= MAX && RouteOk(route, |rt.ratios|) && Parse(b, rt) == Ok(sn)
    requires |sn.nComp| == |sn.nIndexComp| == |rt.ratios|
    requires ShardsSoFar(sn.layout, sn.nComp, sn.nIndexComp, route, |route|, sn.tensors, shards)
    ensures LoadOf(b, rt, route) == Ok(Loaded(sn.tokens, sn.logits, shards))
  {
    hide Parse, ShardBytes, Wire, Loadable, RouteOk;
    WireInvertsParse(b, rt);
    LoadableSizes(sn, rt);
    RouteCovers(sn, rt.ratios, route);
    assert shards == Shards(sn, route) by { MadeShards(sn, route, shards); }
  }

  lemma MadeShards(sn: Snapshot, route: seq<Slice>, shards: seq<seq<Byte>>)
    requires |sn.nComp| == |sn.nIndexComp| <= MAX && RouteOk(route, |sn.nComp|)
    requires forall i :: 0 <= i < |route| ==> Covers(sn, route[i])
    requires ShardsSoFar(sn.layout, sn.nComp, sn.nIndexComp, route, |route|, sn.tensors, shards)
    ensures shards == Shards(sn, route)
  {
    hide ShardBytes, RouteOk;
    forall i | 0 <= i < |route| ensures shards[i] == Shards(sn, route)[i] {
      assert ShardMade(sn.layout, sn.nComp, sn.nIndexComp, route, i, sn.tensors, shards[i]);
    }
  }
}
