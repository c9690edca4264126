/** The resolver: it rebuilds the leaf set of a petition from the blobs of its Active batches, counts
    classes against thresholds and submits the outcome. */
module Resolver {
  import opened Merkle
  import opened Field
  import opened Wrappers
  import opened Imt
  import opened ImtStore
  import opened Predicate
  import opened Blob
  import opened Petition
  import opened PetitionInvariant

  datatype ResolverView = ResolverView(
    rRoot: Bytes32, predicateHash: Fr, runningRoot: Digest, leafCount: nat, classSet: seq<ClassTag>,
    thresholds: seq<nat>,
    classIndex: u8, activeHashes: seq<Bytes32>)

  function ActiveHashes(batches: seq<BatchRecord>): seq<Bytes32> {
    if |batches| == 0 then []
    else
      var front, last := ActiveHashes(batches[..|batches| - 1]), batches[|batches| - 1];
      if last.active then front + [last.versionedHash] else front
  }

  function ViewOf(en: PetitionEntry): ResolverView {
    var r := en.record;
    ResolverView(r.rRoot, r.predicateHash, r.runningRoot, r.leafCount, r.classSet, r.thresholds, r.classIndex,
                 ActiveHashes(en.batches))
  }

  datatype ResolverError =
    | NoBatches | LeafCountMismatch | RootMismatch
    | BlobMissing(blob: BlobError) | ImtRefused(imt: Error) | ProofFailure

  /** Leaf, nullifier and class tag of one record. */
  datatype Entry = Entry(leaf: Fr, nullifier: Fr, tag: Fr)

  function EntryOf(d: Deployment, r: Record): Entry {
    Entry(LeafOf(d, r), FromBe(r.nullifier), r.classTag)
  }

  function EntriesOf(d: Deployment, rs: seq<Record>): (es: seq<Entry>)
    ensures |es| == |rs|
  {
    seq(|rs|, i requires 0 <= i < |rs| => EntryOf(d, rs[i]))
  }

  // ----- reconstruction -----

  /** The blobs of the listed batches, one after the other. */
  function Fetched(blobs: Blobs, hashes: seq<Bytes32>): Result<seq<Record>, BlobError> {
    if |hashes| == 0 then Ok([])
    else match Fetched(blobs, hashes[..|hashes| - 1])
      case Err(e) => Err(e)
      case Ok(rs) =>
        if hashes[|hashes| - 1] !in blobs then Err(NotFound) else Ok(rs + blobs[hashes[|hashes| - 1]].records)
  }

  datatype Rebuilt = Rebuilt(records: seq<Record>, tree: seq<Leaf>)

  /** Fetching and inserting batch by batch, up to the first failure. */
  function Rebuild(d: Deployment, blobs: Blobs, hashes: seq<Bytes32>): Result<Rebuilt, ResolverError> {
    if |hashes| == 0 then Ok(Rebuilt([], [ZERO]))
    else match Rebuild(d, blobs, hashes[..|hashes| - 1])
      case Err(e) => Err(e)
      case Ok(sofar) =>
        var vh := hashes[|hashes| - 1];
        if vh !in blobs then Err(BlobMissing(NotFound))
        else match InsertAll(d.imt, sofar.tree, LeavesOf(d, blobs[vh].records))
          case Err(e) => Err(ImtRefused(e))
          case Ok(tree) => Ok(Rebuilt(sofar.records + blobs[vh].records, tree))
  }

  function Reconstruction(d: Deployment, blobs: Blobs, view: ResolverView): Result<seq<Entry>, ResolverError> {
    if |view.activeHashes| == 0 then Err(NoBatches)
    else match Rebuild(d, blobs, view.activeHashes)
      case Err(e) => Err(e)
      case Ok(all) =>
        if |all.records| != view.leafCount then Err(LeafCountMismatch)
        else if RootOf(d.imt, all.tree) != view.runningRoot then Err(RootMismatch)
        else Ok(EntriesOf(d, all.records))
  }

  /** Rebuilding batch by batch is fetching everything and inserting everything. */
  lemma {:induction false} RebuildExact(d: Deployment, blobs: Blobs, hashes: seq<Bytes32>)
    ensures Rebuild(d, blobs, hashes).Ok? <==>
            && Fetched(blobs, hashes).Ok?
            && InsertAll(d.imt, [ZERO], LeavesOf(d, Fetched(blobs, hashes).value)).Ok?
    ensures Rebuild(d, blobs, hashes).Ok? ==>
            var rs := Fetched(blobs, hashes).value;
            Rebuild(d, blobs, hashes).value == Rebuilt(rs, InsertAll(d.imt, [ZERO], LeavesOf(d, rs)).value)
  {
    if |hashes| != 0 {
      var front, vh := hashes[..|hashes| - 1], hashes[|hashes| - 1];
      RebuildExact(d, blobs, front);
      if Fetched(blobs, front).Ok? && vh in blobs {
        var rs, next := Fetched(blobs, front).value, blobs[vh].records;
        LeavesConcat(d, rs, next);
        InsertAllConcat(d.imt, [ZERO], LeavesOf(d, rs), LeavesOf(d, next));
      }
    }
  }

  /** Reconstruction succeeds exactly when the blobs are there, their leaves can be inserted, and count and root
      agree with the registry; the entries are then those of the records, in order. */
  lemma ReconstructionExact(d: Deployment, blobs: Blobs, view: ResolverView)
    ensures Reconstruction(d, blobs, view).Ok? <==>
      && |view.activeHashes| > 0 && Fetched(blobs, view.activeHashes).Ok?
      && var rs := Fetched(blobs, view.activeHashes).value;
         var t := InsertAll(d.imt, [ZERO], LeavesOf(d, rs));
         t.Ok? && |rs| == view.leafCount && RootOf(d.imt, t.value) == view.runningRoot
    ensures Reconstruction(d, blobs, view).Ok? ==>
      Reconstruction(d, blobs, view).value == EntriesOf(d, Fetched(blobs, view.activeHashes).value)
  {
    RebuildExact(d, blobs, view.activeHashes);
  }

  /** Result and error are those of the batch-by-batch rebuild. */
  method Reconstruct(d: Deployment, blobs: Blobs, view: ResolverView) returns (r: Result<seq<Entry>, ResolverError>)
    ensures r == Reconstruction(d, blobs, view)
  {
    if |view.activeHashes| == 0 {
      return Err(NoBatches);
    }
    var imt := [ZERO];
    var entries: seq<Entry> := [];
    ghost var rs: seq<Record> := [];
    for i := 0 to |view.activeHashes|
      invariant Rebuild(d, blobs, view.activeHashes[..i]) == Ok(Rebuilt(rs, imt))
      invariant entries == EntriesOf(d, rs)
    {
      var vh := view.activeHashes[i];
      assert view.activeHashes[..i + 1][..i] == view.activeHashes[..i];
      if vh !in blobs {
        RebuildStops(d, blobs, view.activeHashes, i + 1);
        return Err(BlobMissing(NotFound));
      }
      var records := blobs[vh].records;
      var inserted := InsertLeaves(d, imt, records);
      if inserted.Err? {
        RebuildStops(d, blobs, view.activeHashes, i + 1);
        return Err(ImtRefused(inserted.error));
      }
      imt := inserted.value;
      EntriesConcat(d, rs, records);
      entries := entries + EntriesOf(d, records);
      rs := rs + records;
    }
    assert view.activeHashes[..|view.activeHashes|] == view.activeHashes;
    if |entries| != view.leafCount {
      return Err(LeafCountMismatch);
    }
    if RootOf(d.imt, imt) != view.runningRoot {
      return Err(RootMismatch);
    }
    return Ok(entries);
  }

  lemma {:induction false} RebuildStops(d: Deployment, blobs: Blobs, hashes: seq<Bytes32>, i: nat)
    requires i <= |hashes| && Rebuild(d, blobs, hashes[..i]).Err?
    ensures Rebuild(d, blobs, hashes) == Rebuild(d, blobs, hashes[..i])
    decreases |hashes| - i
  {
    if i == |hashes| {
      assert hashes[..i] == hashes;
    } else {
      assert hashes[..i + 1][..i] == hashes[..i];
      RebuildStops(d, blobs, hashes, i + 1);
    }
  }

  method InsertLeaves(d: Deployment, imt: seq<Leaf>, rs: seq<Record>) returns (r: Result<seq<Leaf>, Error>)
    ensures r == InsertAll(d.imt, imt, LeavesOf(d, rs))
  {
    var t := imt;
    var vs := LeavesOf(d, rs);
    for i := 0 to |rs|
      invariant InsertAll(d.imt, t, vs[i..]) == InsertAll(d.imt, imt, vs)
    {
      assert vs[i..][1..] == vs[i + 1..] && vs[i] == LeafOf(d, rs[i]);
      match Insert(d.imt, t, LeafOf(d, rs[i])) {
        case Err(e) => return Err(e);
        case Ok(next) => t := next;
      }
    }
    return Ok(t);
  }

  lemma LeavesConcat(d: Deployment, a: seq<Record>, b: seq<Record>)
    ensures LeavesOf(d, a + b) == LeavesOf(d, a) + LeavesOf(d, b)
  {
  }

  lemma EntriesConcat(d: Deployment, a: seq<Record>, b: seq<Record>)
    ensures EntriesOf(d, a + b) == EntriesOf(d, a) + EntriesOf(d, b)
  {
  }

  // ----- counting -----

  function CountOf(es: seq<Entry>, tag: ClassTag): nat {
    if |es| == 0 then 0 else CountOf(es[..|es| - 1], tag) + (if es[|es| - 1].tag % TWO_16 == tag then 1 else 0)
  }

  /** The entries of a class. */
  ghost function OfClass(es: seq<Entry>, tag: ClassTag): set<nat> {
    set k: nat | 0 <= k < |es| && es[k].tag % TWO_16 == tag
  }

  /** The running count is the number of entries of the class. */
  lemma {:induction false} CountIsSize(es: seq<Entry>, tag: ClassTag)
    ensures CountOf(es, tag) == |OfClass(es, tag)|
  {
    if |es| == 0 {
      assert OfClass(es, tag) == {};
    } else {
      var n := |es| - 1;
      CountIsSize(es[..n], tag);
      if es[n].tag % TWO_16 == tag {
        assert OfClass(es, tag) == OfClass(es[..n], tag) + {n};
      } else {
        assert OfClass(es, tag) == OfClass(es[..n], tag);
      }
    }
  }

  /** Bit `i` says whether the entries of class `i` are at least as many as its threshold. */
  lemma OutcomeMeans(classSet: seq<ClassTag>, thresholds: seq<nat>, es: seq<Entry>, i: nat)
    requires i < |classSet| && i < |thresholds|
    ensures OutcomeBits(classSet, thresholds, es)[i] <==> |OfClass(es, classSet[i])| >= thresholds[i]
  {
    CountIsSize(es, classSet[i]);
  }

  function SumOfCounts(es: seq<Entry>, classSet: seq<ClassTag>): nat {
    if |classSet| == 0 then 0 else SumOfCounts(es, classSet[..|classSet| - 1]) + CountOf(es, classSet[|classSet| - 1])
  }

  ghost predicate Increasing(s: seq<ClassTag>) {
    forall i, j :: 0 <= i < j < |s| ==> s[i] < s[j]
  }

  lemma {:induction false} SumStep(es: seq<Entry>, classSet: seq<ClassTag>)
    requires |es| > 0 && Increasing(classSet)
    ensures SumOfCounts(es, classSet)
         == SumOfCounts(es[..|es| - 1], classSet) + (if es[|es| - 1].tag % TWO_16 in classSet then 1 else 0)
    decreases |classSet|
  {
    if |classSet| != 0 {
      var front, last := classSet[..|classSet| - 1], classSet[|classSet| - 1];
      SumStep(es, front);
      assert classSet == front + [last];
    }
  }

  /** Every entry of a class in the set is counted once: the per-class counts add up to the entries. */
  lemma {:induction false} CountsAddUp(es: seq<Entry>, classSet: seq<ClassTag>)
    requires Increasing(classSet) && forall i :: 0 <= i < |es| ==> es[i].tag % TWO_16 in classSet
    ensures SumOfCounts(es, classSet) == |es|
  {
    if |es| == 0 {
      SumOfNothing(classSet);
    } else {
      SumStep(es, classSet);
      CountsAddUp(es[..|es| - 1], classSet);
    }
  }

  lemma {:induction false} SumOfNothing(classSet: seq<ClassTag>)
    ensures SumOfCounts([], classSet) == 0
  {
    if |classSet| != 0 {
      SumOfNothing(classSet[..|classSet| - 1]);
    }
  }

  function Min(a: nat, b: nat): nat {
    if a <= b then a else b
  }

  /** The outcome: which classes met their thresholds. */
  function OutcomeBits(classSet: seq<ClassTag>, thresholds: seq<nat>, es: seq<Entry>): (bits: seq<bool>)
    ensures |bits| == Min(|classSet|, |thresholds|)
  {
    seq(Min(|classSet|, |thresholds|), i requires 0 <= i < Min(|classSet|, |thresholds|) =>
        CountOf(es, classSet[i]) >= thresholds[i])
  }

  /** Each outcome bit says exactly whether its class met its threshold, and the overall bit whether all did. */
  method ComputeOutcome(view: ResolverView, es: seq<Entry>) returns (b: bool, perClass: seq<bool>)
    requires Increasing(view.classSet)
    ensures perClass == OutcomeBits(view.classSet, view.thresholds, es)
    ensures forall i :: 0 <= i < |perClass| ==> (perClass[i] <==> |OfClass(es, view.classSet[i])| >= view.thresholds[i])
    ensures b <==> forall i :: 0 <= i < |perClass| ==> perClass[i]
  {
    var n := |view.classSet|;
    var counts := new nat[n](_ => 0);
    for k := 0 to |es|
      invariant forall i :: 0 <= i < n ==> counts[i] == CountOf(es[..k], view.classSet[i])
    {
      assert es[..k + 1][..k] == es[..k];
      var tag := es[k].tag % TWO_16;
      var found := BinarySearch(view.classSet, tag);
      if found.Some? {
        counts[found.value] := counts[found.value] + 1;
      }
    }
    assert es[..|es|] == es;
    perClass := [];
    b := true;
    for i := 0 to Min(n, |view.thresholds|)
      invariant |perClass| == i
      invariant forall j :: 0 <= j < i ==> (perClass[j] <==> CountOf(es, view.classSet[j]) >= view.thresholds[j])
      invariant b <==> forall j :: 0 <= j < i ==> perClass[j]
    {
      perClass := perClass + [counts[i] >= view.thresholds[i]];
      b := b && perClass[i];
    }
    forall i | 0 <= i < |perClass| ensures perClass[i] <==> |OfClass(es, view.classSet[i])| >= view.thresholds[i] {
      CountIsSize(es, view.classSet[i]);
    }
  }

  method BinarySearch(s: seq<ClassTag>, x: ClassTag) returns (r: Option<nat>)
    requires Increasing(s)
    ensures r.Some? ==> r.value < |s| && s[r.value] == x
    ensures r.None? ==> x !in s
  {
    var lo, hi := 0, |s|;
    while lo < hi
      invariant 0 <= lo <= hi <= |s|
      invariant forall i :: 0 <= i < lo ==> s[i] < x
      invariant forall i :: hi <= i < |s| ==> s[i] > x
    {
      var mid := (lo + hi) / 2;
      if s[mid] == x {
        return Some(mid);
      } else if s[mid] < x {
        lo := mid + 1;
      } else {
        hi := mid;
      }
    }
    return None;
  }

  // ----- the submission -----

  function EntryLeaves(es: seq<Entry>): (vs: seq<nat>)
    ensures |vs| == |es| && forall i :: 0 <= i < |es| ==> vs[i] == es[i].leaf
  {
    seq(|es|, i requires 0 <= i < |es| => es[i].leaf as nat)
  }

  /** First pass: all leaves are inserted, up to the first refusal. */
  method InsertEntries(imt: IndexedMerkleTree, es: seq<Entry>) returns (r: Option<Error>)
    requires imt.Valid()
    modifies imt
    ensures imt.Valid()
    ensures match InsertAll(imt.p, old(imt.leaves), EntryLeaves(es))
            case Err(e) => r == Some(e)
            case Ok(t) => r == None && imt.leaves == t
  {
    var vs := EntryLeaves(es);
    for i := 0 to |es|
      invariant imt.Valid()
      invariant InsertAll(imt.p, imt.leaves, vs[i..]) == InsertAll(imt.p, old(imt.leaves), vs)
    {
      assert vs[i..][1..] == vs[i + 1..];
      var w := imt.InsertValue(ToBe(es[i].leaf));
      if w.Err? {
        return Some(w.error);
      }
    }
    return None;
  }

  lemma InsertedEntriesAreThere(p: Params, es: seq<Entry>)
    requires InsertAll(p, [ZERO], EntryLeaves(es)).Ok?
    ensures var t := InsertAll(p, [ZERO], EntryLeaves(es)).value;
            forall k :: 0 <= k < |es| ==> Has(t, es[k].leaf)
  {
    EmptyIsSorted();
    InsertAllOutcome(p, [ZERO], EntryLeaves(es));
    var t := InsertAll(p, [ZERO], EntryLeaves(es)).value;
    HasIffListed(t);
    forall k | 0 <= k < |es| ensures Has(t, es[k].leaf) {
      assert ValuesOf(t)[1 + k] == EntryLeaves(es)[k];
    }
  }

  /** Two passes over the entries: all leaves are inserted, then each is looked up in the final tree; every
      membership proof so obtained verifies against the root of that tree. */
  method MembershipPaths(d: Deployment, es: seq<Entry>) returns (r: Result<seq<Membership>, Error>)
    ensures match InsertAll(d.imt, [ZERO], EntryLeaves(es))
            case Err(e) => r == Err(e)
            case Ok(t) => r.Ok? && AllProven(d.imt, RootOf(d.imt, t), es, r.value)
  {
    var imt := new IndexedMerkleTree(d.imt);
    var refused := InsertEntries(imt, es);
    if refused.Some? {
      return Err(refused.value);
    }
    InsertedEntriesAreThere(d.imt, es);
    var paths := LookUpAll(imt, es);
    return Ok(paths);
  }

  /** Looks every entry up in the finished tree. */
  method LookUpAll(imt: IndexedMerkleTree, es: seq<Entry>) returns (paths: seq<Membership>)
    requires imt.Valid() && forall k :: 0 <= k < |es| ==> Has(imt.leaves, es[k].leaf)
    ensures AllProven(imt.p, RootOf(imt.p, imt.leaves), es, paths)
  {
    paths := [];
    for i := 0 to |es|
      invariant |paths| == i
      invariant forall k :: 0 <= k < i ==> Proven(imt.p, RootOf(imt.p, imt.leaves), es[k], paths[k])
    {
      var m := imt.QueryMembership(ToBe(es[i].leaf));
      paths := paths + [m.value];
    }
  }

  /** `m` is a membership proof of the entry's leaf against `root`. */
  ghost predicate Proven(p: Params, root: Digest, e: Entry, m: Membership) {
    m.leaf.value == e.leaf && m.bits == Bits(m.index, p.depth) && Verifies(p, m.leaf, m.index, m.siblings, root)
  }

  /** One membership proof per entry, each against `root`. */
  ghost predicate AllProven(p: Params, root: Digest, es: seq<Entry>, paths: seq<Membership>) {
    |paths| == |es| && forall i :: 0 <= i < |es| ==> Proven(p, root, es[i], paths[i])
  }

  function PublicInputs(view: ResolverView, b: bool, perClass: seq<bool>): ResolutionPublic {
    ResolutionPublic(view.predicateHash, FromBe(view.rRoot), view.runningRoot, view.leafCount % P,
                     seq(|view.classSet|, i requires 0 <= i < |view.classSet| => view.classSet[i] % P),
                     seq(|view.thresholds|, i requires 0 <= i < |view.thresholds| => view.thresholds[i] % P),
                     if b then 1 else 0,
                     seq(|perClass|, i requires 0 <= i < |perClass| => if perClass[i] then 1 else 0),
                     view.classIndex % P)
  }

  /** What the prover is given besides the public inputs. */
  datatype PrivateInputs = PrivateInputs(leaves: seq<Fr>, paths: seq<Membership>, witnesses: seq<(Fr, Fr)>)

  function LeavesIn(es: seq<Entry>): seq<Fr> {
    seq(|es|, i requires 0 <= i < |es| => es[i].leaf)
  }

  function WitnessesIn(es: seq<Entry>): seq<(Fr, Fr)> {
    seq(|es|, i requires 0 <= i < |es| => (es[i].nullifier, es[i].tag))
  }

  /** All of it true? */
  predicate All(bits: seq<bool>) {
    forall i :: 0 <= i < |bits| ==> bits[i]
  }

  type Prover = (ResolutionPublic, PrivateInputs) -> Option<Proof>

  function ClaimFor(view: ResolverView, es: seq<Entry>): ResolutionPublic {
    var bits := OutcomeBits(view.classSet, view.thresholds, es);
    PublicInputs(view, All(bits), bits)
  }

  /** A submission built from entries: it claims exactly their outcome; it fails only when the leaves cannot be
      inserted or no proof is found; and every path handed to the prover verifies against the root of the tree
      of all the entries' leaves. */
  ghost predicate Submits(d: Deployment, prove: Prover, view: ResolverView, es: seq<Entry>,
                          r: Result<ResolutionSubmission, ResolverError>, private: PrivateInputs)
  {
    match InsertAll(d.imt, [ZERO], EntryLeaves(es))
    case Err(e) => r == Err(ImtRefused(e))
    case Ok(t) =>
      && private.leaves == LeavesIn(es) && private.witnesses == WitnessesIn(es)
      && AllProven(d.imt, RootOf(d.imt, t), es, private.paths)
      && match prove(ClaimFor(view, es), private)
         case None => r == Err(ProofFailure)
         case Some(proof) => r == Ok(ResolutionSubmission(ClaimFor(view, es), proof))
  }

  method BuildSubmission(d: Deployment, prove: Prover, view: ResolverView, es: seq<Entry>)
    returns (r: Result<ResolutionSubmission, ResolverError>, private: PrivateInputs)
    requires Increasing(view.classSet)
    ensures Submits(d, prove, view, es, r, private)
  {
    var b, perClass := ComputeOutcome(view, es);
    var paths := MembershipPaths(d, es);
    private := PrivateInputs([], [], []);
    if paths.Err? {
      return Err(ImtRefused(paths.error)), private;
    }
    private := PrivateInputs(LeavesIn(es), paths.value, WitnessesIn(es));
    var public := PublicInputs(view, b, perClass);
    match prove(public, private) {
      case None => return Err(ProofFailure), private;
      case Some(proof) => return Ok(ResolutionSubmission(public, proof)), private;
    }
  }

  /** The whole resolver: reconstruction, then the submission for what was reconstructed. */
  ghost predicate Resolves(d: Deployment, blobs: Blobs, prove: Prover, view: ResolverView,
                           r: Result<ResolutionSubmission, ResolverError>, private: PrivateInputs)
  {
    match Reconstruction(d, blobs, view)
    case Err(e) => r == Err(e)
    case Ok(es) => Submits(d, prove, view, es, r, private)
  }

  method Resolve(d: Deployment, blobs: Blobs, prove: Prover, view: ResolverView)
    returns (r: Result<ResolutionSubmission, ResolverError>, private: PrivateInputs)
    requires Increasing(view.classSet)
    ensures Resolves(d, blobs, prove, view, r, private)
  {
    var entries := Reconstruct(d, blobs, view);
    if entries.Err? {
      return Err(entries.error), PrivateInputs([], [], []);
    }
    r, private := BuildSubmission(d, prove, view, entries.value);
  }

  // ----- agreement with the registry -----

  lemma {:induction false} ActivePrefixHashes(batches: seq<BatchRecord>, k: nat)
    requires ActivePrefix(batches, k)
    ensures ActiveHashes(batches) == seq(k, i requires 0 <= i < k => batches[i].versionedHash)
    decreases |batches|
  {
    if |batches| != 0 {
      var m := |batches| - 1;
      if k <= m {
        ActivePrefixHashes(batches[..m], k);
      } else {
        ActivePrefixHashes(batches[..m], m);
      }
    }
  }

  lemma {:induction false} FetchedIsFlat(blobs: Blobs, batches: seq<BatchRecord>, hs: seq<seq<Record>>, k: nat, j: nat)
    requires j <= k <= |hs| == |batches| && Available(blobs, batches, hs, k)
    ensures Fetched(blobs, seq(j, i requires 0 <= i < j => batches[i].versionedHash)) == Ok(Flat(hs[..j]))
    decreases j
  {
    if j != 0 {
      var m := j - 1;
      FetchedIsFlat(blobs, batches, hs, k, m);
      var s := seq(j, i requires 0 <= i < j => batches[i].versionedHash);
      assert s[..m] == seq(m, i requires 0 <= i < m => batches[i].versionedHash) && s[m] == batches[m].versionedHash;
      assert hs[..j][..m] == hs[..m];
    }
  }

  /** Reconstruction succeeds on every petition with an Active batch whose blobs are available, and yields
      one entry per active record, in order. */
  lemma ReconstructionSucceeds(d: Deployment, blobs: Blobs, en: PetitionEntry, hs: seq<seq<Record>>, k: nat, block: nat)
    requires Holds(d, en, hs, k, block) && 1 <= k && Available(blobs, en.batches, hs, k)
    requires en.record.state != Unresolved
    ensures var view := ViewOf(en);
            && |view.activeHashes| > 0 && Fetched(blobs, view.activeHashes) == Ok(Flat(hs[..k]))
            && InsertAll(d.imt, [ZERO], LeavesOf(d, Flat(hs[..k]))) == Ok(en.trees.running)
            && |Flat(hs[..k])| == view.leafCount && RootOf(d.imt, en.trees.running) == view.runningRoot
  {
    ActivePrefixHashes(en.batches, k);
    FetchedIsFlat(blobs, en.batches, hs, k, k);
    TreesAfterIsReplay(d, hs[..k]);
    ReplayIsInsertAll(d, FRESH, Flat(hs[..k]));
  }

  lemma {:induction false} FlatInClassSet(d: Deployment, classSet: seq<ClassTag>, hs: seq<seq<Record>>,
                                          batches: seq<BatchRecord>, k: nat, i: nat)
    requires |hs| == |batches| && k <= |hs| && AllBatchesHold(d, classSet, hs, batches) && i < |Flat(hs[..k])|
    ensures Flat(hs[..k])[i].classTag in classSet
    decreases k
  {
    var m := k - 1;
    assert hs[..k][..m] == hs[..m];
    if i < |Flat(hs[..m])| {
      FlatInClassSet(d, classSet, hs, batches, m, i);
    } else {
      assert BatchHolds(d, classSet, hs, m, batches[m]);
      var n := i - |Flat(hs[..m])|;
      assert hs[m][n].classTag in classSet;
    }
  }

  /** The counts of a reconstructed petition add up to its leaf count. */
  lemma PetitionCountsAddUp(d: Deployment, en: PetitionEntry, hs: seq<seq<Record>>, k: nat, block: nat)
    requires Holds(d, en, hs, k, block)
    ensures SumOfCounts(EntriesOf(d, Flat(hs[..k])), en.record.classSet) == en.record.leafCount
  {
    var rs := Flat(hs[..k]);
    var es := EntriesOf(d, rs);
    forall i | 0 <= i < |es| ensures es[i].tag % TWO_16 in en.record.classSet {
      FlatInClassSet(d, en.record.classSet, hs, en.batches, k, i);
    }
    CountsAddUp(es, en.record.classSet);
  }

  /** The registry's petition is one the resolver can work on: consistent, in its dispute window, with an Active
      batch, and all Active blobs available. */
  ghost predicate Resolvable(d: Deployment, blobs: Blobs, en: PetitionEntry, hs: seq<seq<Record>>, k: nat, block: nat) {
    && Holds(d, en, hs, k, block) && 1 <= k && Available(blobs, en.batches, hs, k)
    && en.record.state == DisputeWindow
  }

  lemma EntryLeavesAre(d: Deployment, rs: seq<Record>)
    ensures EntryLeaves(EntriesOf(d, rs)) == LeavesOf(d, rs)
  {
  }

  /** What the resolver returns for such a petition: it fails only for want of a proof; there is one path per
      counted leaf, each verifies against the registry's own running root; and the public inputs claim exactly
      the outcome of the active records. */
  lemma ResolveAgrees(d: Deployment, blobs: Blobs, prove: Prover, en: PetitionEntry, hs: seq<seq<Record>>, k: nat,
                      block: nat, r: Result<ResolutionSubmission, ResolverError>, private: PrivateInputs)
    requires Resolvable(d, blobs, en, hs, k, block) && Resolves(d, blobs, prove, ViewOf(en), r, private)
    ensures var es := EntriesOf(d, Flat(hs[..k]));
            && (r.Err? ==> r == Err(ProofFailure))
            && |private.paths| == en.record.leafCount && AllProven(d.imt, en.record.runningRoot, es, private.paths)
            && (r.Ok? ==>
                 && r.value.public == ClaimFor(ViewOf(en), es)
                 && prove(r.value.public, private) == Some(r.value.proof))
  {
    ReconstructionSucceeds(d, blobs, en, hs, k, block);
    ReconstructionExact(d, blobs, ViewOf(en));
    EntryLeavesAre(d, Flat(hs[..k]));
  }

  /** The resolver at work on a petition of the registry. */
  method ResolveEntry(d: Deployment, blobs: Blobs, prove: Prover, en: PetitionEntry,
                      ghost hs: seq<seq<Record>>, ghost k: nat, ghost block: nat)
    returns (r: Result<ResolutionSubmission, ResolverError>, private: PrivateInputs)
    requires Resolvable(d, blobs, en, hs, k, block)
    ensures r.Err? ==> r == Err(ProofFailure)
    ensures |private.paths| == en.record.leafCount
    ensures AllProven(d.imt, en.record.runningRoot, EntriesOf(d, Flat(hs[..k])), private.paths)
    ensures r.Ok? ==> r.value.public == ClaimFor(ViewOf(en), EntriesOf(d, Flat(hs[..k])))
  {
    r, private := Resolve(d, blobs, prove, ViewOf(en));
    ResolveAgrees(d, blobs, prove, en, hs, k, block, r, private);
  }

  /** The submission built from the registry's own view passes the state checks of `resolve` exactly when the
      stored credential root is a canonical field element: a root of P or more is reduced on the way out and
      compared unreduced on the way back. */
  lemma SubmissionMatchesIffCanonical(d: Deployment, en: PetitionEntry, hs: seq<seq<Record>>, k: nat, b: bool,
                                      perClass: seq<bool>, block: nat)
    requires IndexableTree(d) && Holds(d, en, hs, k, block) && en.record.state == DisputeWindow
    requires |perClass| == |en.record.classSet|
    ensures ResolutionMatches(en.record, PublicInputs(ViewOf(en), b, perClass)) <==> en.record.rRoot < P
  {
    TreesAfterSound(d, hs[..k]);
    var p, r := PublicInputs(ViewOf(en), b, perClass), en.record;
    assert r.leafCount < TWO_64;
  }

  /** A petition whose credential root is not canonical never resolves, whatever is submitted by whomever. */
  lemma UncanonicalNeverResolves(d: Deployment, en: PetitionEntry, resolver: Address, sub: ResolutionSubmission,
                                 block: nat)
    requires en.record.rRoot >= P
    ensures ResolvePetition(d, en, resolver, sub, block).result.Err?
  {
  }

  /** After the deadline, the resolver's submission with a verifying proof resolves a petition whose credential
      root is canonical, and stores exactly the computed outcome bits. */
  lemma SubmissionResolves(d: Deployment, en: PetitionEntry, hs: seq<seq<Record>>, k: nat, b: bool, perClass: seq<bool>,
                           resolver: Address, proof: Proof, block: nat)
    requires IndexableTree(d) && Holds(d, en, hs, k, block) && en.record.state == DisputeWindow && en.record.rRoot < P
    requires |perClass| == |en.record.classSet| && d.verifyResolution(proof, PublicInputs(ViewOf(en), b, perClass))
    requires en.record.closeAt + RESOLUTION_DEADLINE_BLOCKS <= block
    requires en.record.closeAt + RESOLUTION_DEADLINE_BLOCKS < TWO_64
    ensures var sub := ResolutionSubmission(PublicInputs(ViewOf(en), b, perClass), proof);
            var o := ResolvePetition(d, en, resolver, sub, block);
            && o.result == Ok(Payout(resolver, en.record.bounty, resolver, 0)) && o.entry.record.state == Resolved
            && o.entry.record.b == b && o.entry.record.bPerClass == perClass
  {
    SubmissionMatchesIffCanonical(d, en, hs, k, b, perClass, block);
    SettleMonotone(en.record.state, en.record.closeAt, block);
    var sub := ResolutionSubmission(PublicInputs(ViewOf(en), b, perClass), proof);
    var o := ResolvePetition(d, en, resolver, sub, block);
    assert o.entry.record.bPerClass == perClass;
  }

  /** A generated resolution proof verifies. */
  ghost predicate ProverComplete(d: Deployment, prove: Prover) {
    forall public, private {:trigger prove(public, private)} ::
      prove(public, private).Some? ==> d.verifyResolution(prove(public, private).value, public)
  }

  /** The active records of a class. */
  ghost function RecordsOfClass(rs: seq<Record>, tag: ClassTag): set<nat> {
    set k: nat | 0 <= k < |rs| && rs[k].classTag == tag
  }

  lemma EntriesOfClass(d: Deployment, rs: seq<Record>, tag: ClassTag)
    ensures OfClass(EntriesOf(d, rs), tag) == RecordsOfClass(rs, tag)
  {
  }

  /** The leaf of every entry is the hash of the nullifier and tag handed to the prover beside it, and these are the
      record's. */
  lemma EntriesOpenLeaves(d: Deployment, rs: seq<Record>, k: nat)
    requires k < |rs|
    ensures var e := EntriesOf(d, rs)[k];
            && e.nullifier == rs[k].nullifier % P && e.tag == rs[k].classTag && e.leaf == d.leaf(e.nullifier, e.tag) % P
    ensures LeavesIn(EntriesOf(d, rs))[k] == EntriesOf(d, rs)[k].leaf
    ensures WitnessesIn(EntriesOf(d, rs))[k] == (EntriesOf(d, rs)[k].nullifier, EntriesOf(d, rs)[k].tag)
  {
  }

  /** The public inputs, field by field. */
  lemma ClaimFields(en: PetitionEntry, b: bool, perClass: seq<bool>)
    ensures var p, r := PublicInputs(ViewOf(en), b, perClass), en.record;
            && p.predicateHash == r.predicateHash && p.rRoot == r.rRoot % P && p.runningRoot == r.runningRoot
            && p.leafCount == r.leafCount % P && p.classIndex == r.classIndex && (p.b == if b then 1 else 0)
            && |p.classSet| == |r.classSet| && |p.thresholds| == |r.thresholds| && |p.bPerClass| == |perClass|
            && (forall i :: 0 <= i < |r.classSet| ==> p.classSet[i] == r.classSet[i])
            && (forall i :: 0 <= i < |r.thresholds| ==> p.thresholds[i] == r.thresholds[i] % P)
            && (forall i :: 0 <= i < |perClass| ==> p.bPerClass[i] == if perClass[i] then 1 else 0)
  {
  }

  /** From the registry and back: what the resolver submits after the deadline resolves a petition with a
      canonical credential root; the stored bits say for each class whether its active records met its threshold,
      and the resolver is paid the bounty. */
  lemma ResolverIsAccepted(d: Deployment, blobs: Blobs, prove: Prover, en: PetitionEntry, hs: seq<seq<Record>>, k: nat,
                           block: nat, r: Result<ResolutionSubmission, ResolverError>, private: PrivateInputs,
                           resolver: Address)
    requires IndexableTree(d) && ProverComplete(d, prove) && en.record.rRoot < P
    requires Resolvable(d, blobs, en, hs, k, block) && Resolves(d, blobs, prove, ViewOf(en), r, private) && r.Ok?
    requires en.record.closeAt + RESOLUTION_DEADLINE_BLOCKS <= block
    requires en.record.closeAt + RESOLUTION_DEADLINE_BLOCKS < TWO_64
    ensures var o := ResolvePetition(d, en, resolver, r.value, block);
            var bits := OutcomeBits(en.record.classSet, en.record.thresholds, EntriesOf(d, Flat(hs[..k])));
            && o.result == Ok(Payout(resolver, en.record.bounty, resolver, 0)) && o.entry.record.state == Resolved
            && o.entry.record.bPerClass == bits && o.entry.record.b == All(bits)
    ensures var r := ResolvePetition(d, en, resolver, r.value, block).entry.record;
            && |r.bPerClass| == |r.classSet|
            && forall i :: 0 <= i < |r.classSet| ==>
                 (r.bPerClass[i] <==> |RecordsOfClass(Flat(hs[..k]), r.classSet[i])| >= r.thresholds[i])
  {
    ResolveAgrees(d, blobs, prove, en, hs, k, block, r, private);
    var bits := OutcomeBits(en.record.classSet, en.record.thresholds, EntriesOf(d, Flat(hs[..k])));
    assert r.value == ResolutionSubmission(PublicInputs(ViewOf(en), All(bits), bits), r.value.proof);
    SubmissionResolves(d, en, hs, k, All(bits), bits, resolver, r.value.proof, block);
    ResolvedTerms(d, en, resolver, r.value, block);
    forall i | 0 <= i < |en.record.classSet|
      ensures bits[i] <==> |RecordsOfClass(Flat(hs[..k]), en.record.classSet[i])| >= en.record.thresholds[i]
    {
      OutcomeMeans(en.record.classSet, en.record.thresholds, EntriesOf(d, Flat(hs[..k])), i);
      EntriesOfClass(d, Flat(hs[..k]), en.record.classSet[i]);
    }
  }

  lemma ResolvedTerms(d: Deployment, en: PetitionEntry, resolver: Address, sub: ResolutionSubmission, block: nat)
    ensures var r := ResolvePetition(d, en, resolver, sub, block).entry.record;
            r.classSet == en.record.classSet && r.thresholds == en.record.thresholds
  {
  }

  /** Once the first batch has fallen to a dispute nothing is left to resolve: no Active batch, no counted leaf,
      and the resolver stops with `NoBatches`. */
  lemma NothingLeftAfterFirstBatch(d: Deployment, blobs: Blobs, en: PetitionEntry, hs: seq<seq<Record>>,
                                   dispute: Dispute, last: nat, block: nat, later: Blobs)
    requires Inv(d, en, hs, last) && last <= block && Binding(d, blobs, en.batches, hs)
    requires dispute.batchIndex == 0 && DisputeBatch(d, blobs, en, dispute, block).result.Ok?
    ensures var after := DisputeBatch(d, blobs, en, dispute, block).entry;
            && after.record.leafCount == 0 && after.trees == FRESH
            && ViewOf(after).activeHashes == [] && Reconstruction(d, later, ViewOf(after)) == Err(NoBatches)
  {
    DisputeHolds(d, blobs, en, hs, dispute, last, block);
    ActivePrefixHashes(DisputeBatch(d, blobs, en, dispute, block).entry.batches, 0);
    assert hs[..0] == [];
  }
}
