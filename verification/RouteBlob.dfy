/** The route a WORK frame carries: one variable-length record per hop, then where the
    last hop sends its answer. */
module RouteBlob {
  import opened Results
  import opened Words
  import RoutePlan

  /** NI_MAXHOST. */
  const MAXHOST: nat := 1025
  const FIXED: nat := 20
  const RETURN_FIXED: nat := 12
  const UPSTREAM: Word := 1

  datatype Entry = Entry(host: seq<Byte>, port: Word, start: Word, end: Word, flags: Word)

  datatype Return = Return(kind: Word, host: seq<Byte>, port: Word)

  predicate HasNul(b: seq<Byte>) { 0 in b }

  predicate HostOk(e: Entry) {
    0 < |e.host| < MAXHOST && !HasNul(e.host)
  }

  function EntryBytes(e: Entry): (b: seq<Byte>)
    requires |e.host| <= MAX
    ensures |b| == FIXED + |e.host|
  {
    BigEndian(|e.host|) + BigEndian(e.port) + BigEndian(e.start) + BigEndian(e.end) + BigEndian(e.flags) + e.host
  }

  function ReturnBytes(r: Return): (b: seq<Byte>)
    requires |r.host| <= MAX
    ensures |b| == RETURN_FIXED + |r.host|
  {
    BigEndian(r.kind) + BigEndian(|r.host|) + BigEndian(r.port) + r.host
  }

  ghost predicate HostsOk(es: seq<Entry>) {
    forall i :: 0 <= i < |es| ==> HostOk(es[i])
  }

  /** The records of a route, one after the other. */
  function Records(es: seq<Entry>): (b: seq<Byte>)
    requires HostsOk(es)
  {
    if es == [] then [] else assert HostOk(es[0]); EntryBytes(es[0]) + Records(es[1..])
  }

  // --- Building ---

  /** dist_route_plan_append_blob. */
  method Append(blob: seq<Byte>, e: Entry) returns (r: Result<seq<Byte>>)
    ensures r.Ok? <==> 0 < |e.host| < MAXHOST && |blob| + FIXED + |e.host| <= MAX
    ensures r.Ok? ==> r.value == blob + EntryBytes(e)
  {
    if |e.host| == 0 || |e.host| >= MAXHOST { return Err; }
    var add := FIXED + |e.host|;
    if add > MAX || |blob| > MAX - add { return Err; }
    r := Ok(blob + EntryBytes(e));
  }

  /** dist_route_plan_append_return_upstream. */
  method AppendReturn(blob: seq<Byte>) returns (r: Result<seq<Byte>>)
    ensures r.Ok? <==> |blob| + RETURN_FIXED <= MAX
    ensures r.Ok? ==> r.value == blob + ReturnBytes(Return(UPSTREAM, [], 0))
  {
    if |blob| > MAX - RETURN_FIXED { return Err; }
    r := Ok(blob + ReturnBytes(Return(UPSTREAM, [], 0)));
  }

  // --- Reading one record ---

  function WordAt(b: seq<Byte>, i: nat): Word
    requires i + 4 <= |b|
  {
    FromBigEndian(b[i..i + 4])
  }

  /** The record at the front of `b`, if its length and host are acceptable. */
  function TakeEntry(b: seq<Byte>): (r: Result<Entry>)
    ensures r.Ok? ==> HostOk(r.value) && FIXED + |r.value.host| <= |b|
  {
    if |b| < FIXED then Err
    else
      var n := WordAt(b, 0);
      if n == 0 || n >= MAXHOST || n > |b| - FIXED then Err
      else if HasNul(b[FIXED..FIXED + n]) then Err
      else Ok(Entry(b[FIXED..FIXED + n], WordAt(b, 4), WordAt(b, 8), WordAt(b, 12), WordAt(b, 16)))
  }

  lemma FieldsOfEntry(e: Entry, rest: seq<Byte>)
    requires |e.host| <= MAX
    ensures var b := EntryBytes(e) + rest;
            && WordAt(b, 0) == |e.host| && WordAt(b, 4) == e.port && WordAt(b, 8) == e.start
            && WordAt(b, 12) == e.end && WordAt(b, 16) == e.flags
            && b[FIXED..FIXED + |e.host|] == e.host && b[FIXED + |e.host|..] == rest
  {
    hide BigEndian, FromBigEndian;
    var b := EntryBytes(e) + rest;
    assert b[0..4] == BigEndian(|e.host|) && b[4..8] == BigEndian(e.port) && b[8..12] == BigEndian(e.start);
    assert b[12..16] == BigEndian(e.end) && b[16..20] == BigEndian(e.flags);
    BigEndianRoundTrip(|e.host|, BigEndian(0));
    BigEndianRoundTrip(e.port, BigEndian(0));
    BigEndianRoundTrip(e.start, BigEndian(0));
    BigEndianRoundTrip(e.end, BigEndian(0));
    BigEndianRoundTrip(e.flags, BigEndian(0));
  }

  /** Writing a record and reading it back. */
  lemma TakeInvertsWrite(e: Entry, rest: seq<Byte>)
    requires HostOk(e)
    ensures TakeEntry(EntryBytes(e) + rest) == Ok(e)
    ensures (EntryBytes(e) + rest)[FIXED + |e.host|..] == rest
  {
    hide EntryBytes, WordAt;
    FieldsOfEntry(e, rest);
  }

  lemma FieldIsBytes(b: seq<Byte>, i: nat)
    requires i + 4 <= |b|
    ensures BigEndian(WordAt(b, i)) == b[i..i + 4]
  {
    BigEndianRoundTrip(0, b[i..i + 4]);
  }

  /** Whatever is read as a record is that record's encoding. */
  lemma WriteInvertsTake(b: seq<Byte>)
    requires TakeEntry(b).Ok?
    ensures var e := TakeEntry(b).value;
            b == EntryBytes(e) + b[FIXED + |e.host|..]
  {
    hide BigEndian, WordAt;
    FieldIsBytes(b, 0);
    FieldIsBytes(b, 4);
    FieldIsBytes(b, 8);
    FieldIsBytes(b, 12);
    FieldIsBytes(b, 16);
    var n := |TakeEntry(b).value.host|;
    assert b == b[0..4] + b[4..8] + b[8..12] + b[12..16] + b[16..20] + b[20..20 + n] + b[20 + n..];
  }

  // --- Validating ---

  /** One hop of an acceptable route; `prev` is the last layer of the hop before. */
  predicate EntryOk(e: Entry, nLayers: nat, prev: int) {
    && 0 < e.port <= 65535
    && e.start <= e.end < nLayers
    && e.flags <= 1
    && (e.flags == 1 ==> e.end + 1 == nLayers)
    && (prev >= 0 ==> e.start == prev + 1)
  }

  /** The validator as a function of the bytes still unread. */
  predicate Accepts(b: seq<Byte>, count: nat, nLayers: nat, prev: int)
    decreases count
  {
    if count == 0 then b == ReturnBytes(Return(UPSTREAM, [], 0))
    else
      match TakeEntry(b)
      case Err => false
      case Ok(e) => EntryOk(e, nLayers, prev) && Accepts(b[FIXED + |e.host|..], count - 1, nLayers, e.end)
  }

  /** The return record check at the end of the validator. */
  method ValidateReturn(b: seq<Byte>) returns (ok: bool)
    ensures ok <==> b == ReturnBytes(Return(UPSTREAM, [], 0))
  {
    if |b| < RETURN_FIXED { return false; }
    var kind, hostLen, port := WordAt(b, 0), WordAt(b, 4), WordAt(b, 8);
    FieldIsBytes(b, 0);
    FieldIsBytes(b, 4);
    FieldIsBytes(b, 8);
    assert b == b[0..4] + b[4..8] + b[8..12] + b[12..];
    BigEndianRoundTrip(UPSTREAM, BigEndian(0));
    BigEndianRoundTrip(0, BigEndian(0));
    var remaining := |b| - RETURN_FIXED;
    if hostLen >= MAXHOST || hostLen > remaining { return false; }
    if HasNul(b[RETURN_FIXED..RETURN_FIXED + hostLen]) { return false; }
    if kind != UPSTREAM { return false; }
    if hostLen != 0 || port != 0 { return false; }
    ok := remaining == 0;
  }

  /** dist_route_validate_blob. */
  method Validate(blob: seq<Byte>, count: nat, nLayers: nat) returns (ok: bool)
    requires |blob| <= MAX && nLayers <= MAX
    ensures ok <==> if count == 0 then blob == [] else Accepts(blob, count, nLayers, -1)
  {
    hide TakeEntry, EntryOk;
    if count == 0 { return |blob| == 0; }
    var p: nat, prev: int := 0, -1;
    for i := 0 to count
      invariant 0 <= p <= |blob|
      invariant Accepts(blob, count, nLayers, -1) == Accepts(blob[p..], count - i, nLayers, prev)
    {
      match TakeEntry(blob[p..]) {
        case Err => return false;
        case Ok(e) =>
          if !EntryOk(e, nLayers, prev) { return false; }
          assert blob[p..][FIXED + |e.host|..] == blob[p + FIXED + |e.host|..];
          p, prev := p + FIXED + |e.host|, e.end;
      }
    }
    ok := ValidateReturn(blob[p..]);
  }

  /** A route the validator wants: valid hops, each starting behind the one before. */
  ghost predicate RouteOk(es: seq<Entry>, nLayers: nat, prev: int) {
    && HostsOk(es)
    && forall i :: 0 <= i < |es| ==> EntryOk(es[i], nLayers, EndBefore(es, i, prev))
  }

  /** Last layer of the hop before hop `i`. */
  function EndBefore(es: seq<Entry>, i: nat, prev: int): int
    requires i < |es|
  {
    if i == 0 then prev else es[i - 1].end
  }

  function Wire(es: seq<Entry>): seq<Byte>
    requires HostsOk(es)
  {
    Records(es) + ReturnBytes(Return(UPSTREAM, [], 0))
  }

  lemma TailOk(es: seq<Entry>, nLayers: nat, prev: int)
    requires es != []
    ensures RouteOk(es, nLayers, prev) <==>
              HostOk(es[0]) && EntryOk(es[0], nLayers, prev) && RouteOk(es[1..], nLayers, es[0].end)
  {
    hide HostOk, EntryOk;
    var t := es[1..];
    if HostOk(es[0]) && EntryOk(es[0], nLayers, prev) && RouteOk(t, nLayers, es[0].end) {
      forall i | 0 <= i < |es|
        ensures HostOk(es[i]) && EntryOk(es[i], nLayers, EndBefore(es, i, prev))
      {
        if i > 0 {
          assert es[i] == t[i - 1] && EndBefore(es, i, prev) == EndBefore(t, i - 1, es[0].end);
          assert HostOk(t[i - 1]) && EntryOk(t[i - 1], nLayers, EndBefore(t, i - 1, es[0].end));
        }
      }
    }
    if RouteOk(es, nLayers, prev) {
      assert HostOk(es[0]) && EntryOk(es[0], nLayers, EndBefore(es, 0, prev));
      forall i | 0 <= i < |t|
        ensures HostOk(t[i]) && EntryOk(t[i], nLayers, EndBefore(t, i, es[0].end))
      {
        assert t[i] == es[i + 1] && EndBefore(t, i, es[0].end) == EndBefore(es, i + 1, prev);
        assert HostOk(es[i + 1]) && EntryOk(es[i + 1], nLayers, EndBefore(es, i + 1, prev));
      }
    }
  }

  lemma WireHead(es: seq<Entry>)
    requires es != [] && HostsOk(es)
    ensures Wire(es) == EntryBytes(es[0]) + Wire(es[1..])
  {
    hide EntryBytes, ReturnBytes;
  }

  /** Every acceptable route is accepted when written out. */
  lemma {:induction false} AcceptsWritten(es: seq<Entry>, nLayers: nat, prev: int)
    requires RouteOk(es, nLayers, prev)
    ensures Accepts(Wire(es), |es|, nLayers, prev)
  {
    hide EntryBytes, TakeEntry, HostOk, EntryOk;
    if es != [] {
      TailOk(es, nLayers, prev);
      WireHead(es);
      TakeInvertsWrite(es[0], Wire(es[1..]));
      AcceptsWritten(es[1..], nLayers, es[0].end);
    }
  }

  /** Every accepted blob is an acceptable route written out. */
  lemma {:induction false} AcceptedIsWritten(b: seq<Byte>, count: nat, nLayers: nat, prev: int) returns (es: seq<Entry>)
    requires Accepts(b, count, nLayers, prev)
    ensures |es| == count && RouteOk(es, nLayers, prev) && b == Wire(es)
    decreases count
  {
    hide EntryBytes, TakeEntry, EntryOk;
    if count == 0 {
      es := [];
    } else {
      var e := TakeEntry(b).value;
      var rest := AcceptedIsWritten(b[FIXED + |e.host|..], count - 1, nLayers, e.end);
      es := [e] + rest;
      assert es[1..] == rest;
      TailOk(es, nLayers, prev);
      WireHead(es);
      WriteInvertsTake(b);
    }
  }

  /** The validator accepts exactly the encodings of acceptable routes. */
  lemma ValidatorIsExact(b: seq<Byte>, count: nat, nLayers: nat)
    requires count > 0
    ensures Accepts(b, count, nLayers, -1)
            <==> exists es :: |es| == count && RouteOk(es, nLayers, -1) && b == Wire(es)
  {
    hide Accepts, Wire;
    if Accepts(b, count, nLayers, -1) {
      var es := AcceptedIsWritten(b, count, nLayers, -1);
    }
    forall es | |es| == count && RouteOk(es, nLayers, -1) && b == Wire(es) ensures Accepts(b, count, nLayers, -1) {
      AcceptsWritten(es, nLayers, -1);
    }
  }

  /** An acceptable route is one contiguous chain, and only its last hop may return logits. */
  lemma RouteIsContiguous(es: seq<Entry>, nLayers: nat, i: nat)
    requires RouteOk(es, nLayers, -1) && i + 1 < |es|
    ensures es[i + 1].start == es[i].end + 1
    ensures es[i].flags == 0
  {
    assert EntryOk(es[i], nLayers, EndBefore(es, i, -1)) && EntryOk(es[i + 1], nLayers, EndBefore(es, i + 1, -1));
  }

  // --- Lookup by a worker ---

  /** dist_route_get_entry. */
  method GetEntry(blob: seq<Byte>, count: nat, target: nat) returns (r: Result<Entry>)
    ensures r == if target < count then EntryAt(blob, target) else Err
  {
    hide TakeEntry;
    if target >= count { return Err; }
    var p := 0;
    for i := 0 to count
      invariant 0 <= p <= |blob| && i <= target
      invariant EntryAt(blob, target) == EntryAt(blob[p..], target - i)
    {
      match TakeEntry(blob[p..]) {
        case Err => return Err;
        case Ok(e) =>
          if i == target { return Ok(e); }
          assert blob[p..][FIXED + |e.host|..] == blob[p + FIXED + |e.host|..];
          p := p + FIXED + |e.host|;
      }
    }
    r := Err;
  }

  function EntryAt(b: seq<Byte>, target: nat): Result<Entry>
    decreases target
  {
    match TakeEntry(b)
    case Err => Err
    case Ok(e) => if target == 0 then Ok(e) else EntryAt(b[FIXED + |e.host|..], target - 1)
  }

  /** Looking up hop `i` of a written route gives hop `i`. */
  lemma {:induction false} LookupFindsHop(es: seq<Entry>, i: nat, nLayers: nat, prev: int)
    requires RouteOk(es, nLayers, prev) && i < |es|
    ensures EntryAt(Wire(es), i) == Ok(es[i])
  {
    hide EntryBytes, TakeEntry, HostOk, EntryOk;
    TailOk(es, nLayers, prev);
    WireHead(es);
    TakeInvertsWrite(es[0], Wire(es[1..]));
    if i > 0 { LookupFindsHop(es[1..], i - 1, nLayers, es[0].end); }
  }

  /** Length of the record at the front of `b`, as the return lookup steps over it. */
  function SkipEntry(b: seq<Byte>): (r: Result<nat>)
    ensures r.Ok? ==> r.value <= |b|
  {
    if |b| < FIXED then Err
    else
      var n := WordAt(b, 0);
      if n > |b| - FIXED || HasNul(b[FIXED..FIXED + n]) then Err else Ok(FIXED + n)
  }

  function TakeReturn(b: seq<Byte>): Result<Return> {
    if |b| < RETURN_FIXED then Err
    else
      var n := WordAt(b, 4);
      if n >= MAXHOST || n > |b| - RETURN_FIXED || HasNul(b[RETURN_FIXED..RETURN_FIXED + n]) || |b| != RETURN_FIXED + n then Err
      else Ok(Return(WordAt(b, 0), b[RETURN_FIXED..], WordAt(b, 8)))
  }

  function ReturnAt(b: seq<Byte>, count: nat): Result<Return>
    decreases count
  {
    if count == 0 then TakeReturn(b)
    else match SkipEntry(b)
         case Err => Err
         case Ok(n) => ReturnAt(b[n..], count - 1)
  }

  /** dist_route_get_return_target. */
  method GetReturn(blob: seq<Byte>, count: nat) returns (r: Result<Return>)
    ensures r == if count == 0 then Err else ReturnAt(blob, count)
  {
    hide SkipEntry, TakeReturn;
    if count == 0 { return Err; }
    var p := 0;
    for i := 0 to count
      invariant 0 <= p <= |blob|
      invariant ReturnAt(blob, count) == ReturnAt(blob[p..], count - i)
    {
      match SkipEntry(blob[p..]) {
        case Err => return Err;
        case Ok(n) =>
          assert blob[p..][n..] == blob[p + n..];
          p := p + n;
      }
    }
    r := TakeReturn(blob[p..]);
  }

  lemma SkipWritten(e: Entry, rest: seq<Byte>)
    requires HostOk(e)
    ensures SkipEntry(EntryBytes(e) + rest) == Ok(FIXED + |e.host|)
  {
    hide EntryBytes, WordAt;
    FieldsOfEntry(e, rest);
  }

  lemma UpstreamReturn()
    ensures TakeReturn(ReturnBytes(Return(UPSTREAM, [], 0))) == Ok(Return(UPSTREAM, [], 0))
  {
    hide BigEndian, FromBigEndian, HasNul;
    var b := ReturnBytes(Return(UPSTREAM, [], 0));
    ReturnFields(b);
    assert b[RETURN_FIXED..RETURN_FIXED + 0] == [] == b[RETURN_FIXED..];
    assert !HasNul([]) by { NoNul(); }
  }

  lemma NoNul()
    ensures !HasNul([])
  {
  }

  lemma ReturnFields(b: seq<Byte>)
    requires b == ReturnBytes(Return(UPSTREAM, [], 0))
    ensures |b| == RETURN_FIXED && WordAt(b, 0) == UPSTREAM && WordAt(b, 4) == 0 && WordAt(b, 8) == 0
  {
    hide BigEndian, FromBigEndian;
    assert b[0..4] == BigEndian(UPSTREAM) && b[4..8] == BigEndian(0) && b[8..12] == BigEndian(0);
    BigEndianRoundTrip(UPSTREAM, BigEndian(0));
    BigEndianRoundTrip(0, BigEndian(0));
  }

  /** The twelve bytes behind the hops: kind 1, no host, port 0, in network order. */
  lemma ReturnRecord()
    ensures ReturnBytes(Return(UPSTREAM, [], 0)) == [0, 0, 0, 1, 0, 0, 0, 0, 0, 0, 0, 0]
  {
  }

  /** The return target of a written route is UPSTREAM. */
  lemma {:induction false} ReturnIsUpstream(es: seq<Entry>, nLayers: nat, prev: int)
    requires RouteOk(es, nLayers, prev)
    ensures ReturnAt(Wire(es), |es|) == Ok(Return(UPSTREAM, [], 0))
  {
    hide EntryBytes, SkipEntry, TakeReturn, TakeEntry, HostOk, EntryOk;
    if es == [] {
      UpstreamReturn();
      assert Wire(es) == ReturnBytes(Return(UPSTREAM, [], 0));
    } else {
      TailOk(es, nLayers, prev);
      WireHead(es);
      SkipWritten(es[0], Wire(es[1..]));
      TakeInvertsWrite(es[0], Wire(es[1..]));
      ReturnIsUpstream(es[1..], nLayers, es[0].end);
    }
  }

  // --- Every plan becomes an accepted blob ---

  function EntryOf(w: RoutePlan.Worker): Entry {
    Entry(w.host, w.port, w.start, w.end, if w.hasOutput then 1 else 0)
  }

  /** What the registry checks before it admits a worker, and what a numeric host name is. */
  predicate Admitted(w: RoutePlan.Worker, nLayers: nat) {
    && HostOk(EntryOf(w))
    && 0 < w.port <= 65535
    && w.start <= w.end < nLayers
    && (w.hasOutput ==> w.end + 1 == nLayers)
  }

  function Entries(path: seq<RoutePlan.Worker>): (es: seq<Entry>)
    ensures |es| == |path|
  {
    seq(|path|, i requires 0 <= i < |path| => EntryOf(path[i]))
  }

  /** A chain the search finds among admitted workers is a route every worker accepts, and
      only its last hop can carry the logits flag. */
  lemma PlanIsAccepted(local: RoutePlan.Local, workers: seq<RoutePlan.Worker>, path: seq<RoutePlan.Worker>, next: nat)
    requires local.nLayers >= 1 && RoutePlan.Covers(local, workers, path, next, local.nLayers - 1)
    requires forall w :: w in workers ==> Admitted(w, local.nLayers)
    ensures RouteOk(Entries(path), local.nLayers, -1)
    ensures Accepts(Wire(Entries(path)), |path|, local.nLayers, -1)
  {
    hide HostOk, RoutePlan.CandidateOk, Wire, Accepts;
    RoutePlan.CoverIsContiguous(local, workers, path, next, local.nLayers - 1);
    var es := Entries(path);
    forall i | 0 <= i < |es| ensures HostOk(es[i]) && EntryOk(es[i], local.nLayers, EndBefore(es, i, -1)) {
      assert path[i] in workers;
    }
    AcceptsWritten(es, local.nLayers, -1);
  }

  /** Looking up hop `i` of the route written for a plan gives the plan's worker, field by field. */
  lemma PlanIsFound(local: RoutePlan.Local, workers: seq<RoutePlan.Worker>, path: seq<RoutePlan.Worker>, next: nat, i: nat)
    requires local.nLayers >= 1 && RoutePlan.Covers(local, workers, path, next, local.nLayers - 1)
    requires (forall w :: w in workers ==> Admitted(w, local.nLayers)) && i < |path|
    ensures HostsOk(Entries(path)) && EntryAt(Wire(Entries(path)), i).Ok?
    ensures var e, w := EntryAt(Wire(Entries(path)), i).value, path[i];
            && e.host == w.host && e.port == w.port && e.start == w.start && e.end == w.end
            && (e.flags == 1 <==> w.hasOutput) && (e.flags == 0 <==> !w.hasOutput)
  {
    hide EntryAt, Wire, Accepts, RoutePlan.Covers, Admitted, HostOk;
    PlanIsAccepted(local, workers, path, next);
    LookupFindsHop(Entries(path), i, local.nLayers, -1);
  }

  /** What is asked of the hops of an acceptable route, in terms of the whole route. */
  lemma AcceptableRoute(es: seq<Entry>, nLayers: nat)
    ensures RouteOk(es, nLayers, -1) <==>
              && (forall i :: 0 <= i < |es| ==> HopOk(es, i, nLayers))
              && (forall i :: 0 <= i < |es| - 1 ==> es[i].flags == 0 && es[i + 1].start == es[i].end + 1)
  {
    if RouteOk(es, nLayers, -1) {
      forall i | 0 <= i < |es| ensures HopOk(es, i, nLayers) {
        assert HostOk(es[i]) && EntryOk(es[i], nLayers, EndBefore(es, i, -1));
      }
      forall i | 0 <= i < |es| - 1 ensures es[i].flags == 0 && es[i + 1].start == es[i].end + 1 { RouteIsContiguous(es, nLayers, i); }
    }
    if (forall i :: 0 <= i < |es| ==> HopOk(es, i, nLayers))
       && (forall i :: 0 <= i < |es| - 1 ==> es[i].flags == 0 && es[i + 1].start == es[i].end + 1) {
      forall i | 0 <= i < |es| ensures HostOk(es[i]) && EntryOk(es[i], nLayers, EndBefore(es, i, -1)) {
        assert HopOk(es, i, nLayers);
        if i > 0 { assert es[i - 1 + 1].start == es[i - 1].end + 1; }
      }
    }
  }

  /** A host name of 1 to 1024 bytes without NUL, a port, a range of layers, and the logits
      flag only on a hop that ends with the last layer. */
  ghost predicate HopOk(es: seq<Entry>, i: nat, nLayers: nat)
    requires i < |es|
  {
    var e := es[i];
    && 1 <= |e.host| <= 1024 && (forall k :: 0 <= k < |e.host| ==> e.host[k] != 0)
    && 1 <= e.port <= 0xffff && e.start <= e.end < nLayers
    && (e.flags == 0 || (e.flags == 1 && e.end == nLayers - 1))
  }

  lemma {:induction false} RecordsConcat(x: seq<Entry>, y: seq<Entry>)
    requires HostsOk(x) && HostsOk(y)
    ensures HostsOk(x + y) && Records(x + y) == Records(x) + Records(y)
  {
    hide EntryBytes, HostOk;
    if x == [] {
      assert x + y == y;
    } else {
      assert (x + y)[1..] == x[1..] + y;
      RecordsConcat(x[1..], y);
    }
  }

  /** The prefix built so far, the next record, and the rest. */
  lemma RecordsSplit(es: seq<Entry>, i: nat)
    requires HostsOk(es) && i < |es|
    ensures HostsOk(es[..i]) && HostsOk(es[..i + 1]) && HostOk(es[i])
    ensures Records(es[..i + 1]) == Records(es[..i]) + EntryBytes(es[i])
    ensures |Records(es)| >= |Records(es[..i + 1])|
  {
    assert HostOk(es[i]);
    hide EntryBytes, Records;
    assert HostsOk([es[i]]) && HostsOk(es[..i]) && HostsOk(es[i + 1..]);
    assert Records([es[i]]) == EntryBytes(es[i]) by { OneRecord(es[i]); }
    RecordsConcat(es[..i], [es[i]]);
    assert es[..i] + [es[i]] == es[..i + 1];
    RecordsConcat(es[..i + 1], es[i + 1..]);
    assert es[..i + 1] + es[i + 1..] == es;
  }

  lemma OneRecord(e: Entry)
    requires HostOk(e)
    ensures HostsOk([e]) && Records([e]) == EntryBytes(e)
  {
    assert [e][1..] == [];
  }

  /** The blob loop of dist_coordinator_build_route_plan. */
  method WritePlan(path: seq<RoutePlan.Worker>) returns (r: Result<seq<Byte>>)
    requires path != [] && HostsOk(Entries(path))
    ensures r.Ok? <==> |Wire(Entries(path))| <= MAX
    ensures r.Ok? ==> r.value == Wire(Entries(path))
  {
    hide EntryBytes, ReturnBytes;
    ghost var es := Entries(path);
    var blob: seq<Byte> := [];
    for i := 0 to |path|
      invariant HostsOk(es[..i]) && blob == Records(es[..i])
    {
      hide Records;
      RecordsSplit(es, i);
      var step := Append(blob, EntryOf(path[i]));
      match step {
        case Err => return Err;
        case Ok(b) => blob := b;
      }
    }
    assert es[..|path|] == es;
    r := AppendReturn(blob);
  }
}
