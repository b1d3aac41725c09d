/** Speaker profiles: an index of centroids that must agree with the enrolled samples and the files on disk. */
module SpeakerProfiles {
  import opened Wrappers

  type UserId = string
  type SampleId = string
  type Vector = seq<real>

  /** Where a sample's audio lies: the user's directory, and a file named after the sample. */
  datatype Path = Path(directory: string, name: SampleId)

  /** A row of the sample table. */
  datatype Sample = Sample(id: SampleId, user: UserId, path: Path, embedding: Vector)

  datatype Profile = Profile(centroid: Vector, count: nat)

  /** The rows in the order of their row ids, the profiles, and the audio files. */
  datatype Index = Index(samples: seq<Sample>, profiles: map<UserId, Profile>, files: map<Path, Bytes>)

  datatype Error = UserRequired | EmbeddingRequired | NoCommonDimension

  // ----- Centroids -----

  /** The embeddings of one user's samples, in row order. */
  function Vectors(samples: seq<Sample>, user: UserId): seq<Vector> {
    if samples == [] then []
    else
      var front, last := samples[..|samples|-1], samples[|samples|-1];
      if last.user == user then Vectors(front, user) + [last.embedding] else Vectors(front, user)
  }

  predicate CommonDimension(vs: seq<Vector>) {
    vs == [] || (vs[0] != [] && forall i :: 0 <= i < |vs| ==> |vs[i]| == |vs[0]|)
  }

  function Sum(vs: seq<Vector>, k: nat): real
    requires forall i :: 0 <= i < |vs| ==> k < |vs[i]|
  {
    if vs == [] then 0.0 else Sum(vs[..|vs|-1], k) + vs[|vs|-1][k]
  }

  /** The componentwise mean. */
  function Centroid(vs: seq<Vector>): (c: Vector)
    requires vs != [] && CommonDimension(vs)
    ensures |c| == |vs[0]|
  {
    seq(|vs[0]|, k requires 0 <= k < |vs[0]| => Sum(vs, k) / |vs| as real)
  }

  function ProfileOf(vs: seq<Vector>): Profile
    requires vs != [] && CommonDimension(vs)
  {
    Profile(Centroid(vs), |vs|)
  }

  // ----- The operations on the index -----

  /** The profile table after one user's profile is computed anew, unless the dimensions differ. */
  function Rebuilt(samples: seq<Sample>, profiles: map<UserId, Profile>, user: UserId):
    Result<map<UserId, Profile>, Error>
  {
    var vs := Vectors(samples, user);
    if vs == [] then Ok(profiles - {user})
    else if !CommonDimension(vs) then Err(NoCommonDimension)
    else Ok(profiles[user := ProfileOf(vs)])
  }

  function NewSample(safe: string -> string, user: UserId, id: SampleId, embedding: Vector): Sample {
    Sample(id, user, Path(safe(user), id), embedding)
  }

  /** Adding a sample: the file is written first, and removed again if the index cannot be rebuilt. */
  function Added(x: Index, s: Sample, wav: Bytes): (Index, Result<Sample, Error>) {
    if s.user == "" then (x, Err(UserRequired))
    else if s.embedding == [] then (x, Err(EmbeddingRequired))
    else
      match Rebuilt(x.samples + [s], x.profiles, s.user)
      case Err(error) => (Index(x.samples, x.profiles, x.files[s.path := wav] - {s.path}), Err(error))
      case Ok(profiles) => (Index(x.samples + [s], profiles, x.files[s.path := wav]), Ok(s))
  }

  predicate Chosen(s: Sample, user: UserId, ids: seq<SampleId>) {
    s.user == user && s.id in ids
  }

  function ChosenOf(samples: seq<Sample>, user: UserId, ids: seq<SampleId>): seq<Sample> {
    if samples == [] then []
    else
      var front, last := samples[..|samples|-1], samples[|samples|-1];
      if Chosen(last, user, ids) then ChosenOf(front, user, ids) + [last] else ChosenOf(front, user, ids)
  }

  function RestOf(samples: seq<Sample>, user: UserId, ids: seq<SampleId>): seq<Sample> {
    if samples == [] then []
    else
      var front, last := samples[..|samples|-1], samples[|samples|-1];
      if Chosen(last, user, ids) then RestOf(front, user, ids) else RestOf(front, user, ids) + [last]
  }

  function Paths(samples: seq<Sample>): set<Path> {
    set s | s in samples :: s.path
  }

  /** Deleting samples: rows and profile in one transaction, the files after it. */
  function Removed(x: Index, user: UserId, ids: seq<SampleId>): (Index, Result<nat, Error>) {
    var chosen := ChosenOf(x.samples, user, ids);
    if chosen == [] then (x, Ok(0))
    else
      match Rebuilt(RestOf(x.samples, user, ids), x.profiles, user)
      case Err(error) => (x, Err(error))
      case Ok(profiles) => (Index(RestOf(x.samples, user, ids), profiles, x.files - Paths(chosen)), Ok(|chosen|))
  }

  function IdsOf(samples: seq<Sample>, user: UserId): seq<SampleId> {
    if samples == [] then []
    else
      var front, last := samples[..|samples|-1], samples[|samples|-1];
      if last.user == user then IdsOf(front, user) + [last.id] else IdsOf(front, user)
  }

  // ----- The invariant -----

  /** A user has a profile if and only if they have samples, and then it has their number and their mean. */
  ghost predicate ProfileAgrees(samples: seq<Sample>, profiles: map<UserId, Profile>, user: UserId) {
    var vs := Vectors(samples, user);
    if vs == [] then user !in profiles
    else CommonDimension(vs) && user in profiles && profiles[user] == ProfileOf(vs)
  }

  ghost predicate UniqueRows(samples: seq<Sample>) {
    forall i, j :: 0 <= i < j < |samples| ==> samples[i].id != samples[j].id
  }

  ghost predicate NamedAfterRows(samples: seq<Sample>) {
    forall s :: s in samples ==> s.path.name == s.id
  }

  ghost predicate Inv(x: Index) {
    && UniqueRows(x.samples) && NamedAfterRows(x.samples)
    && (forall user :: ProfileAgrees(x.samples, x.profiles, user))
    && x.files.Keys == Paths(x.samples)
  }

  lemma VectorsOneMore(samples: seq<Sample>, s: Sample, user: UserId)
    ensures Vectors(samples + [s], user) == if s.user == user then Vectors(samples, user) + [s.embedding]
                                            else Vectors(samples, user)
  {
    assert (samples + [s])[..|samples|] == samples;
  }

  lemma RebuiltAgrees(samples: seq<Sample>, profiles: map<UserId, Profile>, user: UserId, other: UserId)
    requires Rebuilt(samples, profiles, user).Ok?
    requires other != user ==> ProfileAgrees(samples, profiles, other)
    ensures ProfileAgrees(samples, Rebuilt(samples, profiles, user).value, other)
  {
  }

  /** The new row's id was not used before. */
  ghost predicate NewRow(x: Index, s: Sample) {
    s.path.name == s.id && forall r :: r in x.samples ==> r.id != s.id
  }

  lemma NewPath(x: Index, s: Sample)
    requires Inv(x) && NewRow(x, s)
    ensures s.path !in x.files
  {
    assert forall r :: r in x.samples ==> r.path.name != s.path.name;
  }

  lemma AddedAgrees(x: Index, s: Sample, user: UserId)
    requires Inv(x) && Rebuilt(x.samples + [s], x.profiles, s.user).Ok?
    ensures ProfileAgrees(x.samples + [s], Rebuilt(x.samples + [s], x.profiles, s.user).value, user)
  {
    VectorsOneMore(x.samples, s, user);
    assert ProfileAgrees(x.samples, x.profiles, user);
    RebuiltAgrees(x.samples + [s], x.profiles, s.user, user);
  }

  lemma MoreRows(samples: seq<Sample>, s: Sample)
    requires UniqueRows(samples) && NamedAfterRows(samples)
    requires s.path.name == s.id && forall r :: r in samples ==> r.id != s.id
    ensures UniqueRows(samples + [s]) && NamedAfterRows(samples + [s])
  {
  }

  lemma AddedKeepsInv(x: Index, s: Sample, wav: Bytes)
    requires Inv(x) && NewRow(x, s)
    ensures Inv(Added(x, s, wav).0)
  {
    NewPath(x, s);
    assert x.files[s.path := wav] - {s.path} == x.files;
    if Added(x, s, wav).1.Ok? {
      MoreRows(x.samples, s);
      PathsOneMore(x.samples, s);
      forall user ensures ProfileAgrees(x.samples + [s], Added(x, s, wav).0.profiles, user) {
        AddedAgrees(x, s, user);
      }
    }
  }

  lemma PathsOneMore(samples: seq<Sample>, s: Sample)
    ensures Paths(samples + [s]) == Paths(samples) + {s.path}
  {
    var more := samples + [s];
    assert more[|samples|] == s;
    forall p | p in Paths(samples) ensures p in Paths(more) {
      var r :| r in samples && r.path == p;
      assert r in more;
    }
  }

  /** A sample is refused for its dimension exactly if its user has samples of another one; then nothing has changed. */
  lemma AddedFailsExactly(x: Index, s: Sample, wav: Bytes)
    requires Inv(x) && NewRow(x, s) && s.user != "" && s.embedding != []
    ensures Added(x, s, wav).1 == Err(NoCommonDimension) <==>
            Vectors(x.samples, s.user) != [] && |Vectors(x.samples, s.user)[0]| != |s.embedding|
    ensures Added(x, s, wav).1.Err? ==> Added(x, s, wav).0 == x
  {
    NewPath(x, s);
    VectorsOneMore(x.samples, s, s.user);
    assert ProfileAgrees(x.samples, x.profiles, s.user);
    var vs := Vectors(x.samples, s.user);
    var more := Vectors(x.samples + [s], s.user);
    assert more == vs + [s.embedding];
    assert more[|vs|] == s.embedding && (vs != [] ==> more[0] == vs[0]);
    assert x.files[s.path := wav] - {s.path} == x.files;
    if vs == [] || |vs[0]| == |s.embedding| {
      assert forall i :: 0 <= i < |vs| ==> more[i] == vs[i];
      assert CommonDimension(more);
    }
  }

  lemma {:induction false} RestKeepsOthers(samples: seq<Sample>, user: UserId, ids: seq<SampleId>, other: UserId)
    requires other != user
    ensures Vectors(RestOf(samples, user, ids), other) == Vectors(samples, other)
  {
    if samples != [] {
      var front, last := samples[..|samples|-1], samples[|samples|-1];
      RestKeepsOthers(front, user, ids, other);
      if !Chosen(last, user, ids) {
        VectorsOneMore(RestOf(front, user, ids), last, other);
      }
    }
  }

  lemma {:induction false} RestKeepsVectors(samples: seq<Sample>, user: UserId, ids: seq<SampleId>)
    ensures forall v :: v in Vectors(RestOf(samples, user, ids), user) ==> v in Vectors(samples, user)
  {
    if samples != [] {
      var front, last := samples[..|samples|-1], samples[|samples|-1];
      RestKeepsVectors(front, user, ids);
      if !Chosen(last, user, ids) {
        VectorsOneMore(RestOf(front, user, ids), last, user);
      }
    }
  }

  /** Deleting never finds differing dimensions. */
  lemma RemovedNeverFails(x: Index, user: UserId, ids: seq<SampleId>)
    requires Inv(x)
    ensures Removed(x, user, ids).1 == Ok(|ChosenOf(x.samples, user, ids)|)
  {
    assert ProfileAgrees(x.samples, x.profiles, user);
    RestKeepsVectors(x.samples, user, ids);
    var vs := Vectors(RestOf(x.samples, user, ids), user);
    forall i | 0 <= i < |vs| ensures vs[i] in Vectors(x.samples, user) {
      assert vs[i] in vs;
    }
    assert CommonDimension(vs);
  }

  lemma {:induction false} RestRows(samples: seq<Sample>, user: UserId, ids: seq<SampleId>)
    ensures forall s :: s in RestOf(samples, user, ids) <==> s in samples && !Chosen(s, user, ids)
    ensures forall s :: s in ChosenOf(samples, user, ids) <==> s in samples && Chosen(s, user, ids)
    ensures |RestOf(samples, user, ids)| + |ChosenOf(samples, user, ids)| == |samples|
  {
    if samples != [] {
      var front, last := samples[..|samples|-1], samples[|samples|-1];
      RestRows(front, user, ids);
      InOneMore(front, last, samples);
      if Chosen(last, user, ids) {
        InOneMore(ChosenOf(front, user, ids), last, ChosenOf(samples, user, ids));
      } else {
        InOneMore(RestOf(front, user, ids), last, RestOf(samples, user, ids));
      }
    }
  }

  lemma InOneMore(front: seq<Sample>, last: Sample, all: seq<Sample>)
    requires all == front + [last]
    ensures forall s :: s in all <==> s in front || s == last
  {
    assert all[|front|] == last;
  }

  lemma {:induction false} RestUnique(samples: seq<Sample>, user: UserId, ids: seq<SampleId>)
    requires UniqueRows(samples)
    ensures UniqueRows(RestOf(samples, user, ids))
  {
    if samples != [] {
      var front, last := samples[..|samples|-1], samples[|samples|-1];
      RestUnique(front, user, ids);
      RestRows(front, user, ids);
      var rest := RestOf(front, user, ids);
      forall i | 0 <= i < |rest| ensures rest[i].id != last.id {
        assert rest[i] in rest;
      }
    }
  }

  lemma UniquePaths(samples: seq<Sample>, a: Sample, b: Sample)
    requires UniqueRows(samples) && NamedAfterRows(samples) && a in samples && b in samples && a.path == b.path
    ensures a == b
  {
  }

  lemma RemovedKeepsInv(x: Index, user: UserId, ids: seq<SampleId>)
    requires Inv(x)
    ensures Inv(Removed(x, user, ids).0)
  {
    RemovedNeverFails(x, user, ids);
    var chosen, rest := ChosenOf(x.samples, user, ids), RestOf(x.samples, user, ids);
    if chosen != [] {
      var y := Removed(x, user, ids).0;
      RestRows(x.samples, user, ids);
      RestUnique(x.samples, user, ids);
      forall other ensures ProfileAgrees(rest, y.profiles, other) {
        if other != user {
          RestKeepsOthers(x.samples, user, ids, other);
          assert ProfileAgrees(x.samples, x.profiles, other);
        }
        RebuiltAgrees(rest, x.profiles, user, other);
      }
      RemovedPaths(x.samples, user, ids);
    }
  }

  lemma RemovedPaths(samples: seq<Sample>, user: UserId, ids: seq<SampleId>)
    requires UniqueRows(samples) && NamedAfterRows(samples)
    ensures Paths(RestOf(samples, user, ids)) == Paths(samples) - Paths(ChosenOf(samples, user, ids))
  {
    RestRows(samples, user, ids);
    forall p
      ensures p in Paths(RestOf(samples, user, ids)) <==>
              p in Paths(samples) && p !in Paths(ChosenOf(samples, user, ids))
    {
      if p in Paths(samples) {
        var s :| s in samples && s.path == p;
        forall r | r in samples && r.path == p ensures r == s {
          UniquePaths(samples, r, s);
        }
      }
    }
  }

  // ----- Adding and removing undo each other -----

  lemma {:induction false} RestOfOthers(samples: seq<Sample>, user: UserId, ids: seq<SampleId>)
    requires forall s :: s in samples ==> !Chosen(s, user, ids)
    ensures RestOf(samples, user, ids) == samples && ChosenOf(samples, user, ids) == []
  {
    if samples != [] {
      assert samples[|samples|-1] in samples;
      RestOfOthers(samples[..|samples|-1], user, ids);
    }
  }

  lemma ProfilesDetermined(samples: seq<Sample>, p: map<UserId, Profile>, q: map<UserId, Profile>)
    requires forall user :: ProfileAgrees(samples, p, user)
    requires forall user :: ProfileAgrees(samples, q, user)
    ensures p == q
  {
    forall user ensures user in p <==> user in q
      ensures user in p ==> p[user] == q[user]
    {
      assert ProfileAgrees(samples, p, user) && ProfileAgrees(samples, q, user);
    }
  }

  lemma RowsBack(samples: seq<Sample>, s: Sample)
    requires forall r :: r in samples ==> r.id != s.id
    ensures RestOf(samples + [s], s.user, [s.id]) == samples && ChosenOf(samples + [s], s.user, [s.id]) == [s]
  {
    assert (samples + [s])[..|samples|] == samples;
    RestOfOthers(samples, s.user, [s.id]);
  }

  lemma FileBack(x: Index, s: Sample, wav: Bytes)
    requires Inv(x) && NewRow(x, s)
    ensures x.files[s.path := wav] - Paths([s]) == x.files
  {
    NewPath(x, s);
    PathsOneMore([], s);
    assert [] + [s] == [s];
  }

  lemma SameIndex(x: Index, z: Index)
    requires Inv(x) && Inv(z) && x.samples == z.samples && x.files == z.files
    ensures x == z
  {
    ProfilesDetermined(x.samples, x.profiles, z.profiles);
  }

  lemma RemovedParts(x: Index, user: UserId, ids: seq<SampleId>)
    requires Inv(x) && ChosenOf(x.samples, user, ids) != []
    ensures var (y, r) := Removed(x, user, ids);
            && Inv(y) && y.samples == RestOf(x.samples, user, ids)
            && y.files == x.files - Paths(ChosenOf(x.samples, user, ids))
            && r == Ok(|ChosenOf(x.samples, user, ids)|)
  {
    RemovedKeepsInv(x, user, ids);
    RemovedNeverFails(x, user, ids);
  }

  /** Removing the sample just added restores rows, profiles and files. */
  lemma AddThenRemove(x: Index, s: Sample, wav: Bytes)
    requires Inv(x) && NewRow(x, s) && Added(x, s, wav).1.Ok?
    ensures Removed(Added(x, s, wav).0, s.user, [s.id]) == (x, Ok(1))
  {
    var y := Added(x, s, wav).0;
    AddedKeepsInv(x, s, wav);
    RowsBack(x.samples, s);
    RemovedParts(y, s.user, [s.id]);
    FileBack(x, s, wav);
    SameIndex(x, Removed(y, s.user, [s.id]).0);
  }

  lemma {:induction false} AllIdsChosen(samples: seq<Sample>, user: UserId)
    ensures forall s :: s in samples && s.user == user ==> s.id in IdsOf(samples, user)
  {
    if samples != [] {
      AllIdsChosen(samples[..|samples|-1], user);
      assert samples == samples[..|samples|-1] + [samples[|samples|-1]];
    }
  }

  lemma {:induction false} NoRowsNoVectors(samples: seq<Sample>, user: UserId)
    requires forall s :: s in samples ==> s.user != user
    ensures Vectors(samples, user) == []
  {
    if samples != [] {
      assert samples[|samples|-1] in samples;
      NoRowsNoVectors(samples[..|samples|-1], user);
    }
  }

  /** Deleting a profile leaves no row, no profile and no file of the user, and everybody else's. */
  lemma ProfileGone(x: Index, user: UserId)
    requires Inv(x)
    ensures var y := Removed(x, user, IdsOf(x.samples, user)).0;
            && (forall s :: s in y.samples <==> s in x.samples && s.user != user)
            && user !in y.profiles && (forall u :: u != user ==> (u in y.profiles <==> u in x.profiles))
            && (forall p :: p in y.files <==> exists s :: s in x.samples && s.user != user && s.path == p)
  {
    var ids := IdsOf(x.samples, user);
    var y := Removed(x, user, ids).0;
    RemovedKeepsInv(x, user, ids);
    RemovedNeverFails(x, user, ids);
    AllIdsChosen(x.samples, user);
    RestRows(x.samples, user, ids);
    if ChosenOf(x.samples, user, ids) == [] {
      forall s | s in x.samples ensures s.user != user {
        assert s !in ChosenOf(x.samples, user, ids);
      }
    }
    NoRowsNoVectors(y.samples, user);
    assert ProfileAgrees(y.samples, y.profiles, user);
  }

  // ----- The centroid as a mean -----

  lemma CentroidTimesCount(vs: seq<Vector>, k: nat)
    requires vs != [] && CommonDimension(vs) && k < |vs[0]|
    ensures Centroid(vs)[k] * |vs| as real == Sum(vs, k)
  {
  }

  /** One more sample moves the centroid by its share. */
  lemma CentroidOneMore(vs: seq<Vector>, v: Vector, k: nat)
    requires vs != [] && CommonDimension(vs) && |v| == |vs[0]| && k < |v|
    ensures CommonDimension(vs + [v]) && k < |Centroid(vs + [v])|
    ensures Centroid(vs + [v])[k] * (|vs| + 1) as real == Centroid(vs)[k] * |vs| as real + v[k]
  {
    var more := vs + [v];
    assert more[0] == vs[0] && more[..|vs|] == vs && more[|vs|] == v;
    CentroidTimesCount(vs, k);
    CentroidTimesCount(more, k);
    assert Sum(more, k) == Sum(vs, k) + v[k];
  }

  function WithoutEntry(vs: seq<Vector>, i: nat): seq<Vector>
    requires i < |vs|
  {
    vs[..i] + vs[i+1..]
  }

  ghost predicate Has(vs: seq<Vector>, k: nat) {
    forall i :: 0 <= i < |vs| ==> k < |vs[i]|
  }

  lemma {:induction false} SumWithout(vs: seq<Vector>, i: nat, k: nat)
    requires i < |vs| && Has(vs, k)
    ensures Has(WithoutEntry(vs, i), k)
    ensures Sum(vs, k) == Sum(WithoutEntry(vs, i), k) + vs[i][k]
  {
    var n := |vs| - 1;
    if i == n {
      assert WithoutEntry(vs, i) == vs[..n];
    } else {
      SumWithout(vs[..n], i, k);
      assert WithoutEntry(vs, i)[..n-1] == WithoutEntry(vs[..n], i);
      assert WithoutEntry(vs, i)[n-1] == vs[n];
    }
  }

  lemma EntriesWithout(vs: seq<Vector>, i: nat)
    requires i < |vs|
    ensures multiset(vs) == multiset(WithoutEntry(vs, i)) + multiset{vs[i]}
  {
    assert vs == vs[..i] + [vs[i]] + vs[i+1..];
  }

  lemma SameRest(a: multiset<Vector>, b: multiset<Vector>, v: Vector)
    requires a + multiset{v} == b + multiset{v}
    ensures a == b
  {
    assert a == a + multiset{v} - multiset{v} && b == b + multiset{v} - multiset{v};
  }

  lemma PlaceOf(v: Vector, vs: seq<Vector>, ws: seq<Vector>) returns (i: nat)
    requires multiset(vs) == multiset(ws) && v in vs
    ensures i < |ws| && ws[i] == v
  {
    assert v in multiset(vs);
    assert v in multiset(ws);
    i :| 0 <= i < |ws| && ws[i] == v;
  }

  /** The order of the samples does not matter to their sum, nor so to the centroid. */
  lemma {:induction false} SumIgnoresOrder(vs: seq<Vector>, ws: seq<Vector>, k: nat)
    requires multiset(vs) == multiset(ws) && Has(vs, k) && Has(ws, k)
    ensures Sum(vs, k) == Sum(ws, k) && |vs| == |ws|
    decreases |vs|
  {
    assert |multiset(vs)| == |vs| && |multiset(ws)| == |ws|;
    if vs != [] {
      var n := |vs| - 1;
      var i := PlaceOf(vs[n], vs, ws);
      EntriesWithout(ws, i);
      EntriesWithout(vs, n);
      SameRest(multiset(WithoutEntry(vs, n)), multiset(WithoutEntry(ws, i)), vs[n]);
      SumWithout(ws, i, k);
      SumWithout(vs, n, k);
      SumIgnoresOrder(WithoutEntry(vs, n), WithoutEntry(ws, i), k);
    }
  }

  /** The centroid of a single sample is the sample. */
  lemma CentroidOfOne(v: Vector)
    requires v != []
    ensures CommonDimension([v]) && Centroid([v]) == v
  {
    forall k | 0 <= k < |v| ensures Centroid([v])[k] == v[k] {
      assert [v][..0] == [];
      assert Sum([v], k) == v[k];
    }
  }

  // ----- What the operations do to rows, files and profiles -----

  /** The profile after one more sample v: the sample itself if it is the first, else the mean moved by its share. */
  ghost predicate Grown(before: Option<Profile>, after: Profile, v: Vector) {
    match before
    case None => after == Profile(v, 1)
    case Some(p) =>
      && after.count == p.count + 1 && |after.centroid| == |p.centroid| == |v|
      && forall k :: 0 <= k < |v| ==>
           after.centroid[k] * after.count as real == p.centroid[k] * p.count as real + v[k]
  }

  function Lookup<K(==), V>(m: map<K, V>, k: K): Option<V> {
    if k in m then Some(m[k]) else None
  }

  lemma MeanGrows(vs: seq<Vector>, v: Vector)
    requires v != [] && CommonDimension(vs) && (vs != [] ==> |v| == |vs[0]|)
    ensures CommonDimension(vs + [v])
    ensures Grown(if vs == [] then None else Some(ProfileOf(vs)), ProfileOf(vs + [v]), v)
  {
    if vs == [] {
      assert vs + [v] == [v];
      CentroidOfOne(v);
    } else {
      assert (vs + [v])[0] == vs[0];
      forall k | 0 <= k < |v|
        ensures CommonDimension(vs + [v]) && k < |Centroid(vs + [v])| &&
                Centroid(vs + [v])[k] * (|vs| + 1) as real == Centroid(vs)[k] * |vs| as real + v[k]
      {
        CentroidOneMore(vs, v, k);
      }
    }
  }

  /** The profiles of an index follow from its rows, one by one: a further row changes its user's profile only. */
  lemma ProfilesFollowRows(x: Index, y: Index, s: Sample)
    requires Inv(x) && Inv(y) && y.samples == x.samples + [s]
    ensures s.user in y.profiles && Grown(Lookup(x.profiles, s.user), y.profiles[s.user], s.embedding)
    ensures forall u :: u != s.user ==> Lookup(y.profiles, u) == Lookup(x.profiles, u)
  {
    forall u ensures u != s.user ==> Lookup(y.profiles, u) == Lookup(x.profiles, u) {
      VectorsOneMore(x.samples, s, u);
      assert ProfileAgrees(x.samples, x.profiles, u) && ProfileAgrees(y.samples, y.profiles, u);
    }
    OwnProfileGrows(x, y, s);
  }

  lemma OwnProfileGrows(x: Index, y: Index, s: Sample)
    requires Inv(x) && Inv(y) && y.samples == x.samples + [s]
    ensures s.user in y.profiles && Grown(Lookup(x.profiles, s.user), y.profiles[s.user], s.embedding)
  {
    var vs := Vectors(x.samples, s.user);
    VectorsOneMore(x.samples, s, s.user);
    assert ProfileAgrees(x.samples, x.profiles, s.user) && ProfileAgrees(y.samples, y.profiles, s.user);
    var more := vs + [s.embedding];
    assert more == Vectors(y.samples, s.user) && more[|vs|] == s.embedding && (vs != [] ==> more[0] == vs[0]);
    MeanGrows(vs, s.embedding);
  }

  /** A profile counts its user's rows. */
  lemma {:induction false} VectorsCount(samples: seq<Sample>, user: UserId)
    ensures |Vectors(samples, user)| == |Rows(samples, user)|
  {
    if samples != [] {
      var n := |samples| - 1;
      VectorsCount(samples[..n], user);
      var before := Rows(samples[..n], user);
      assert Rows(samples, user) == if samples[n].user == user then before + {n} else before;
    }
  }

  /** The places of the user's rows. */
  function Rows(samples: seq<Sample>, user: UserId): set<nat> {
    set i: nat | i < |samples| && samples[i].user == user
  }

  /** Some row of the user has an embedding of another dimension. */
  ghost predicate Differs(x: Index, s: Sample) {
    exists r :: r in x.samples && r.user == s.user && |r.embedding| != |s.embedding|
  }

  /** What adding a sample does. */
  ghost predicate AdditionMeans(x: Index, y: Index, s: Sample, wav: Bytes, r: Result<Sample, Error>) {
    && (r == Err(UserRequired) <==> s.user == "")
    && (r == Err(EmbeddingRequired) <==> s.user != "" && s.embedding == [])
    && (r == Err(NoCommonDimension) <==> s.user != "" && s.embedding != [] && Differs(x, s))
    && (r.Err? ==> y == x)
    && (r.Ok? ==>
          && r.value == s && y.samples == x.samples + [s] && y.files == x.files[s.path := wav]
          && s.user in y.profiles && Grown(Lookup(x.profiles, s.user), y.profiles[s.user], s.embedding)
          && forall u :: u != s.user ==> Lookup(y.profiles, u) == Lookup(x.profiles, u))
  }

  lemma {:induction false} VectorsAreEmbeddings(samples: seq<Sample>, user: UserId)
    ensures forall r :: r in samples && r.user == user ==> r.embedding in Vectors(samples, user)
    ensures forall v :: v in Vectors(samples, user) ==> exists r :: r in samples && r.user == user && r.embedding == v
  {
    if samples != [] {
      var front, last := samples[..|samples|-1], samples[|samples|-1];
      VectorsAreEmbeddings(front, user);
      assert samples == front + [last];
      forall v | v in Vectors(samples, user) ensures exists r :: r in samples && r.user == user && r.embedding == v {
        if v in Vectors(front, user) {
          var r :| r in front && r.user == user && r.embedding == v;
          assert r in samples;
        } else {
          assert last in samples;
        }
      }
    }
  }

  lemma DiffersExactly(x: Index, s: Sample)
    requires Inv(x)
    ensures Differs(x, s) <==>
            Vectors(x.samples, s.user) != [] && |Vectors(x.samples, s.user)[0]| != |s.embedding|
  {
    var vs := Vectors(x.samples, s.user);
    VectorsAreEmbeddings(x.samples, s.user);
    assert ProfileAgrees(x.samples, x.profiles, s.user);
    if vs != [] {
      assert vs[0] in vs;
    }
    forall r | r in x.samples && r.user == s.user ensures vs != [] && |r.embedding| == |vs[0]| {
      assert r.embedding in vs;
    }
  }

  lemma AdditionIsMeant(x: Index, s: Sample, wav: Bytes)
    requires Inv(x) && NewRow(x, s)
    ensures AdditionMeans(x, Added(x, s, wav).0, s, wav, Added(x, s, wav).1)
  {
    if s.user != "" && s.embedding != [] {
      AddedFailsExactly(x, s, wav);
      DiffersExactly(x, s);
      AddedKeepsInv(x, s, wav);
      if Added(x, s, wav).1.Ok? {
        ProfilesFollowRows(x, Added(x, s, wav).0, s);
      }
    }
  }

  /** What deleting samples does: the chosen rows and their files go, and all else stays, the rows in their order. */
  ghost predicate RemovalMeans(x: Index, y: Index, user: UserId, ids: seq<SampleId>, r: Result<nat, Error>) {
    && r == Ok(|x.samples| - |y.samples|)
    && (forall s :: s in y.samples <==> s in x.samples && !(s.user == user && s.id in ids))
    && InOrder(x.samples, y.samples)
    && (forall p :: p in y.files <==> exists s :: s in y.samples && s.path == p)
    && (forall p :: p in y.files ==> p in x.files && y.files[p] == x.files[p])
    && (forall u :: u != user ==> Lookup(y.profiles, u) == Lookup(x.profiles, u))
    && (user in y.profiles <==> exists s :: s in y.samples && s.user == user)
    && (user in y.profiles ==> y.profiles[user].count == |Rows(y.samples, user)|)
  }

  /** The rows that are left stand in the order in which they stood. */
  ghost predicate InOrder(samples: seq<Sample>, rest: seq<Sample>) {
    forall i, j :: 0 <= i < j < |rest| ==>
      exists a, b :: 0 <= a < b < |samples| && samples[a] == rest[i] && samples[b] == rest[j]
  }

  lemma {:induction false} RestInOrder(samples: seq<Sample>, user: UserId, ids: seq<SampleId>)
    ensures InOrder(samples, RestOf(samples, user, ids))
  {
    if samples != [] {
      var n := |samples| - 1;
      RestInOrder(samples[..n], user, ids);
      RestRows(samples[..n], user, ids);
      var before, rest := RestOf(samples[..n], user, ids), RestOf(samples, user, ids);
      forall i, j | 0 <= i < j < |rest|
        ensures exists a, b :: 0 <= a < b < |samples| && samples[a] == rest[i] && samples[b] == rest[j]
      {
        if j < |before| {
          var a, b :| 0 <= a < b < n && samples[..n][a] == before[i] && samples[..n][b] == before[j];
          assert samples[a] == rest[i] && samples[b] == rest[j];
        } else {
          assert before[i] in samples[..n];
          var a :| 0 <= a < n && samples[..n][a] == before[i];
          assert samples[a] == rest[i] && samples[n] == rest[j];
        }
      }
    }
  }

  lemma RemovedRows(x: Index, user: UserId, ids: seq<SampleId>)
    requires Inv(x)
    ensures var (y, r) := Removed(x, user, ids);
            && r == Ok(|x.samples| - |y.samples|) && InOrder(x.samples, y.samples)
            && (forall s :: s in y.samples <==> s in x.samples && !(s.user == user && s.id in ids))
  {
    RemovedNeverFails(x, user, ids);
    RestRows(x.samples, user, ids);
    RestInOrder(x.samples, user, ids);
    if ChosenOf(x.samples, user, ids) == [] {
      forall s | s in x.samples ensures !Chosen(s, user, ids) {
        assert s !in ChosenOf(x.samples, user, ids);
      }
      RestOfOthers(x.samples, user, ids);
    }
  }

  lemma RemovedProfiles(x: Index, user: UserId, ids: seq<SampleId>)
    requires Inv(x)
    ensures var y := Removed(x, user, ids).0;
            && (forall u :: u != user ==> Lookup(y.profiles, u) == Lookup(x.profiles, u))
            && (user in y.profiles <==> exists s :: s in y.samples && s.user == user)
            && (user in y.profiles ==> y.profiles[user].count == |Rows(y.samples, user)|)
  {
    var y := Removed(x, user, ids).0;
    RemovedKeepsInv(x, user, ids);
    VectorsAreEmbeddings(y.samples, user);
    VectorsCount(y.samples, user);
    assert ProfileAgrees(y.samples, y.profiles, user);
    if user in y.profiles {
      assert Vectors(y.samples, user)[0] in Vectors(y.samples, user);
    }
  }

  lemma RemovedFiles(x: Index, user: UserId, ids: seq<SampleId>)
    requires Inv(x)
    ensures var y := Removed(x, user, ids).0;
            && (forall p :: p in y.files <==> exists s :: s in y.samples && s.path == p)
            && (forall p :: p in y.files ==> p in x.files && y.files[p] == x.files[p])
  {
    RemovedKeepsInv(x, user, ids);
  }

  lemma RemovalIsMeant(x: Index, user: UserId, ids: seq<SampleId>)
    requires Inv(x)
    ensures RemovalMeans(x, Removed(x, user, ids).0, user, ids, Removed(x, user, ids).1)
  {
    RemovedRows(x, user, ids);
    RemovedProfiles(x, user, ids);
    RemovedFiles(x, user, ids);
  }

  // ----- The store -----

  class ProfileStore {
    /** A path component that is safe for the file system. */
    const safe: string -> string
    var samples: seq<Sample>
    var profiles: map<UserId, Profile>
    var files: map<Path, Bytes>
    var rebuildCount: nat

    function State(): Index
      reads this
    {
      Index(samples, profiles, files)
    }

    constructor (s: string -> string)
      ensures safe == s && State() == Index([], map[], map[]) && Inv(State())
    {
      safe := s;
      samples, profiles, files, rebuildCount := [], map[], map[], 0;
    }

    method RebuildProfile(user: UserId) returns (r: Result<(), Error>)
      modifies this`profiles, this`rebuildCount
      ensures rebuildCount == old(rebuildCount) + 1
      ensures match Rebuilt(samples, old(profiles), user)
              case Ok(rebuilt) => r == Ok(()) && profiles == rebuilt
              case Err(error) => r == Err(error) && profiles == old(profiles)
    {
      var embeddings := Vectors(samples, user);
      rebuildCount := rebuildCount + 1;
      if embeddings == [] {
        profiles := profiles - {user};
        return Ok(());
      }
      if !CommonDimension(embeddings) { return Err(NoCommonDimension); }
      profiles := profiles[user := Profile(Centroid(embeddings), |embeddings|)];
      return Ok(());
    }

    method AddSample(user: UserId, id: SampleId, wav: Bytes, embedding: Vector) returns (r: Result<Sample, Error>)
      requires Inv(State()) && forall r :: r in samples ==> r.id != id
      modifies this
      ensures (State(), r) == Added(old(State()), NewSample(safe, user, id, embedding), wav)
      ensures AdditionMeans(old(State()), State(), Sample(id, user, Path(safe(user), id), embedding), wav, r)
      ensures Inv(State()) && (r.Err? ==> State() == old(State()))
    {
      ghost var s := NewSample(safe, user, id, embedding);
      AddedKeepsInv(State(), s, wav);
      AdditionIsMeant(State(), s, wav);
      if user == "" { return Err(UserRequired); }
      if embedding == [] { return Err(EmbeddingRequired); }
      AddedFailsExactly(State(), s, wav);
      var path := Path(safe(user), id);
      files := files[path := wav];
      var saved := samples;
      samples := samples + [Sample(id, user, path, embedding)];
      var rebuilt := RebuildProfile(user);
      if rebuilt.Err? {
        samples := saved;
        files := files - {path};
        return Err(rebuilt.error);
      }
      return Ok(Sample(id, user, path, embedding));
    }

    method DeleteSamples(user: UserId, ids: seq<SampleId>) returns (r: Result<nat, Error>)
      requires Inv(State())
      modifies this
      ensures (State(), r) == Removed(old(State()), user, ids)
      ensures Inv(State())
    {
      RemovedKeepsInv(State(), user, ids);
      var rows := ChosenOf(samples, user, ids);
      if rows == [] { return Ok(0); }
      var saved := samples;
      samples := RestOf(samples, user, ids);
      var rebuilt := RebuildProfile(user);
      if rebuilt.Err? {
        samples := saved;
        return Err(rebuilt.error);
      }
      files := files - Paths(rows);
      return Ok(|rows|);
    }

    method DeleteProfile(user: UserId) returns (r: Result<nat, Error>)
      requires Inv(State())
      modifies this
      ensures (State(), r) == Removed(old(State()), user, IdsOf(old(samples), user))
      ensures Inv(State()) && user !in profiles && forall s :: s in samples ==> s.user != user
    {
      ProfileGone(State(), user);
      r := DeleteSamples(user, IdsOf(samples, user));
    }
  }
}
