/** The two topology hashes: the coordinator's and the finer one of the watcher. */
module TopologyHash {
  import opened Text
  import opened Ordering
  import opened Topology

  function StateText(s: InstanceState): string {
    match s
    case Online => "online"
    case Offline => "offline"
    case Recovering => "recovering"
    case Failed => "failed"
    case Maintenance => "maintenance"
  }

  /** What the coordinator's hash sees of an instance. */
  datatype Face = Face(addr: Addr, state: InstanceState)

  function FaceOf(i: Instance): Face {
    Face(AddrOf(i), i.state)
  }

  function FaceText(f: Face): string {
    InstanceId(f.addr) + ":" + StateText(f.state)
  }

  /** What the watcher's hash sees: the replication lag as well, absent read as 0. */
  datatype LagFace = LagFace(face: Face, lag: int)

  function LagFaceOf(i: Instance): LagFace {
    LagFace(FaceOf(i), if i.lag.Some? then i.lag.value else 0)
  }

  function LagFaceText(f: LagFace): string {
    FaceText(f.face) + ":" + Num(f.lag)
  }

  function Faces(instances: seq<Instance>): seq<Face> {
    seq(|instances|, i requires 0 <= i < |instances| => FaceOf(instances[i]))
  }

  function LagFaces(instances: seq<Instance>): seq<LagFace> {
    seq(|instances|, i requires 0 <= i < |instances| => LagFaceOf(instances[i]))
  }

  function Texts<F>(fs: seq<F>, text: F -> string): (texts: seq<string>)
    ensures |texts| == |fs| && forall i | 0 <= i < |fs| :: texts[i] == text(fs[i])
  {
    if fs == [] then [] else [text(fs[0])] + Texts(fs[1..], text)
  }

  function PrimaryFace(c: Cluster): Option<Face> {
    if c.primary.Some? then Some(FaceOf(c.primary.value)) else None
  }

  function PrimaryText(c: Cluster): string {
    if c.primary.Some? then FaceText(FaceOf(c.primary.value)) else "null"
  }

  /** The coordinator's hash. */
  function Hash(c: Cluster): string {
    Join([c.id, PrimaryText(c)] + SortBy(Texts(Faces(c.replicas), FaceText), StringLeq), '|')
  }

  /** The watcher's hash. */
  function WatcherHash(c: Cluster): string {
    Join([c.id, PrimaryText(c)] + SortBy(Texts(LagFaces(c.replicas), LagFaceText), StringLeq), '|')
  }

  /** No '|' in the id or in any host. */
  predicate Clean(c: Cluster) {
    && Lacks(c.id, '|')
    && (c.primary.Some? ==> Lacks(c.primary.value.host, '|'))
    && (forall i | 0 <= i < |c.replicas| :: Lacks(c.replicas[i].host, '|'))
  }

  /** What the hash is meant to tell. */
  predicate SameTopology(c: Cluster, d: Cluster) {
    && c.id == d.id && PrimaryFace(c) == PrimaryFace(d)
    && multiset(Faces(c.replicas)) == multiset(Faces(d.replicas))
  }

  // ---------------------------------------------------------------------------
  // Texts name faces
  // ---------------------------------------------------------------------------

  lemma StateTextInjective(s: InstanceState, t: InstanceState)
    requires StateText(s) == StateText(t)
    ensures s == t
  {
    assert StateText(s)[1] == StateText(t)[1];
    assert StateText(s)[0] == StateText(t)[0];
  }

  lemma FaceTextInjective(f: Face, g: Face)
    requires FaceText(f) == FaceText(g)
    ensures f == g
  {
    LastSeparatorUnique(InstanceId(f.addr), StateText(f.state), InstanceId(g.addr), StateText(g.state), ':');
    InstanceIdInjective(f.addr, g.addr);
    StateTextInjective(f.state, g.state);
  }

  lemma LagFaceTextInjective(f: LagFace, g: LagFace)
    requires LagFaceText(f) == LagFaceText(g)
    ensures f == g
  {
    NumChars(f.lag);
    NumChars(g.lag);
    LastSeparatorUnique(FaceText(f.face), Num(f.lag), FaceText(g.face), Num(g.lag), ':');
    FaceTextInjective(f.face, g.face);
    ParseIntNum(f.lag);
    ParseIntNum(g.lag);
  }

  lemma FaceTextShape(f: Face)
    requires Lacks(f.addr.host, '|')
    ensures Lacks(FaceText(f), '|')
    ensures ':' in FaceText(f)
  {
    DecLacks(f.addr.port, '|');
    assert FaceText(f)[|InstanceId(f.addr)|] == ':';
  }

  lemma LagFaceTextShape(f: LagFace)
    requires Lacks(f.face.addr.host, '|')
    ensures Lacks(LagFaceText(f), '|')
  {
    FaceTextShape(f.face);
    NumChars(f.lag);
  }

  ghost predicate Injective<F(!new)>(text: F -> string) {
    forall f, g :: text(f) == text(g) ==> f == g
  }

  /** Under an injective text, a face and its text occur equally often. */
  lemma {:induction false} TextCount<F(!new)>(fs: seq<F>, text: F -> string, f: F)
    requires Injective(text)
    ensures multiset(Texts(fs, text))[text(f)] == multiset(fs)[f]
  {
    if fs == [] {
    } else {
      TextCount(fs[1..], text, f);
      assert fs == [fs[0]] + fs[1..];
      assert Texts(fs, text) == [text(fs[0])] + Texts(fs[1..], text);
    }
  }

  lemma TextsMultiset<F(!new)>(fs: seq<F>, gs: seq<F>, text: F -> string)
    requires Injective(text) && multiset(fs) == multiset(gs)
    ensures multiset(Texts(fs, text)) == multiset(Texts(gs, text))
  {
    forall s: string
      ensures multiset(Texts(fs, text))[s] == multiset(Texts(gs, text))[s]
    {
      if f :| f in fs + gs && text(f) == s {
        TextCount(fs, text, f);
        TextCount(gs, text, f);
      } else {
        assert s !in Texts(fs, text) by {
          assert forall f | f in fs :: f in fs + gs;
        }
        assert s !in Texts(gs, text) by {
          assert forall f | f in gs :: f in fs + gs;
        }
      }
    }
  }

  lemma FacesMultiset<F(!new)>(fs: seq<F>, gs: seq<F>, text: F -> string)
    requires Injective(text) && multiset(Texts(fs, text)) == multiset(Texts(gs, text))
    ensures multiset(fs) == multiset(gs)
  {
    forall f
      ensures multiset(fs)[f] == multiset(gs)[f]
    {
      TextCount(fs, text, f);
      TextCount(gs, text, f);
    }
  }

  /** Sorted texts agree exactly when the faces agree as multisets. */
  lemma SortedTextsCanonical<F(!new)>(fs: seq<F>, gs: seq<F>, text: F -> string)
    requires Injective(text)
    ensures SortBy(Texts(fs, text), StringLeq) == SortBy(Texts(gs, text), StringLeq) <==> multiset(fs) == multiset(gs)
  {
    StringOrder();
    SortCanonical(Texts(fs, text), Texts(gs, text), StringLeq);
    if multiset(fs) == multiset(gs) {
      TextsMultiset(fs, gs, text);
    }
    if multiset(Texts(fs, text)) == multiset(Texts(gs, text)) {
      FacesMultiset(fs, gs, text);
    }
  }

  lemma SortKeepsLacks(texts: seq<string>, c: char)
    requires AllLack(texts, c)
    ensures AllLack(SortBy(texts, StringLeq), c)
  {
    var sorted := SortBy(texts, StringLeq);
    forall i | 0 <= i < |sorted|
      ensures Lacks(sorted[i], c)
    {
      assert sorted[i] in multiset(texts);
    }
  }

  /** Joined parts agree only when the parts do. */
  lemma JoinInjective(ps: seq<string>, qs: seq<string>, c: char)
    requires |ps| >= 1 && |qs| >= 1 && AllLack(ps, c) && AllLack(qs, c)
    ensures Join(ps, c) == Join(qs, c) <==> ps == qs
  {
    SplitJoin(ps, c);
    SplitJoin(qs, c);
  }

  lemma PrimaryTextCanonical(c: Cluster, d: Cluster)
    requires Clean(c) && Clean(d)
    ensures PrimaryText(c) == PrimaryText(d) <==> PrimaryFace(c) == PrimaryFace(d)
    ensures Lacks(PrimaryText(c), '|')
  {
    if c.primary.Some? {
      FaceTextShape(FaceOf(c.primary.value));
    }
    if d.primary.Some? {
      FaceTextShape(FaceOf(d.primary.value));
    }
    if c.primary.Some? && d.primary.Some? && PrimaryText(c) == PrimaryText(d) {
      FaceTextInjective(FaceOf(c.primary.value), FaceOf(d.primary.value));
    }
  }

  lemma PartsLack(a: string, b: string, rest: seq<string>, c: char)
    requires Lacks(a, c) && Lacks(b, c) && AllLack(rest, c)
    ensures AllLack([a, b] + rest, c)
  {
  }

  lemma HashPartsLack(c: Cluster)
    requires Clean(c)
    ensures AllLack([c.id, PrimaryText(c)] + SortBy(Texts(Faces(c.replicas), FaceText), StringLeq), '|')
  {
    PrimaryTextCanonical(c, c);
    var texts := Texts(Faces(c.replicas), FaceText);
    forall i | 0 <= i < |texts|
      ensures Lacks(texts[i], '|')
    {
      FaceTextShape(FaceOf(c.replicas[i]));
    }
    SortKeepsLacks(texts, '|');
    PartsLack(c.id, PrimaryText(c), SortBy(texts, StringLeq), '|');
  }

  lemma WatcherPartsLack(c: Cluster)
    requires Clean(c)
    ensures AllLack([c.id, PrimaryText(c)] + SortBy(Texts(LagFaces(c.replicas), LagFaceText), StringLeq), '|')
  {
    PrimaryTextCanonical(c, c);
    var texts := Texts(LagFaces(c.replicas), LagFaceText);
    forall i | 0 <= i < |texts|
      ensures Lacks(texts[i], '|')
    {
      LagFaceTextShape(LagFaceOf(c.replicas[i]));
    }
    SortKeepsLacks(texts, '|');
    PartsLack(c.id, PrimaryText(c), SortBy(texts, StringLeq), '|');
  }

  /** Equal hashes mean the same id, the same primary face and the same replica faces, and the other way round. */
  lemma HashCanonical(c: Cluster, d: Cluster)
    requires Clean(c) && Clean(d)
    ensures Hash(c) == Hash(d) <==> SameTopology(c, d)
  {
    var cs := SortBy(Texts(Faces(c.replicas), FaceText), StringLeq);
    var ds := SortBy(Texts(Faces(d.replicas), FaceText), StringLeq);
    HashPartsLack(c);
    HashPartsLack(d);
    JoinInjective([c.id, PrimaryText(c)] + cs, [d.id, PrimaryText(d)] + ds, '|');
    PartsEqual(c.id, PrimaryText(c), cs, d.id, PrimaryText(d), ds);
    PrimaryTextCanonical(c, d);
    forall f, g | FaceText(f) == FaceText(g)
      ensures f == g
    {
      FaceTextInjective(f, g);
    }
    SortedTextsCanonical(Faces(c.replicas), Faces(d.replicas), FaceText);
  }

  /** What the hash sees of the replicas, field by field. */
  function Triples(instances: seq<Instance>): seq<(string, nat, InstanceState)> {
    seq(|instances|, i requires 0 <= i < |instances| => (instances[i].host, instances[i].port, instances[i].state))
  }

  /** The same id, the same primary and the same replicas, as far as host, port and state go. */
  predicate SameData(c: Cluster, d: Cluster) {
    && c.id == d.id && multiset(Triples(c.replicas)) == multiset(Triples(d.replicas))
    && (c.primary.Some? <==> d.primary.Some?)
    && (c.primary.Some? ==>
          && c.primary.value.host == d.primary.value.host && c.primary.value.port == d.primary.value.port
          && c.primary.value.state == d.primary.value.state)
  }

  function Triple(f: Face): (string, nat, InstanceState) {
    (f.addr.host, f.addr.port, f.state)
  }

  lemma {:induction false} TripleCount(instances: seq<Instance>, f: Face)
    ensures multiset(Triples(instances))[Triple(f)] == multiset(Faces(instances))[f]
  {
    if instances == [] {
    } else {
      TripleCount(instances[1..], f);
      assert Triples(instances) == [Triple(FaceOf(instances[0]))] + Triples(instances[1..]);
      assert Faces(instances) == [FaceOf(instances[0])] + Faces(instances[1..]);
    }
  }

  lemma TriplesTell(cs: seq<Instance>, ds: seq<Instance>)
    ensures multiset(Triples(cs)) == multiset(Triples(ds)) <==> multiset(Faces(cs)) == multiset(Faces(ds))
  {
    forall f: Face
      ensures multiset(Triples(cs))[Triple(f)] == multiset(Faces(cs))[f]
      ensures multiset(Triples(ds))[Triple(f)] == multiset(Faces(ds))[f]
    {
      TripleCount(cs, f);
      TripleCount(ds, f);
    }
    if multiset(Faces(cs)) == multiset(Faces(ds)) {
      forall x
        ensures multiset(Triples(cs))[x] == multiset(Triples(ds))[x]
      {
        assert x == Triple(Face(Addr(x.0, x.1), x.2));
      }
    }
  }

  /** The watcher sees host, port, state and lag, an unknown lag as 0. */
  lemma LagFaceTells(a: Instance, b: Instance)
    ensures LagFaceOf(a) == LagFaceOf(b) <==>
            && a.host == b.host && a.port == b.port && a.state == b.state
            && (if a.lag.Some? then a.lag.value else 0) == (if b.lag.Some? then b.lag.value else 0)
  {
  }

  /** Among clean topologies the hash tells exactly id, host, port and state. */
  lemma HashSeesData(c: Cluster, d: Cluster)
    requires Clean(c) && Clean(d)
    ensures SameData(c, d) <==> Hash(c) == Hash(d)
  {
    HashCanonical(c, d);
    TriplesTell(c.replicas, d.replicas);
  }

  lemma FacesFixAddrs(cs: seq<Instance>, ds: seq<Instance>)
    requires multiset(Faces(cs)) == multiset(Faces(ds))
    ensures ReplicaAddrs(cs) <= ReplicaAddrs(ds)
  {
    forall i | 0 <= i < |cs|
      ensures AddrOf(cs[i]) in ReplicaAddrs(ds)
    {
      assert Faces(cs)[i] in multiset(Faces(ds));
      var j :| 0 <= j < |ds| && Faces(ds)[j] == Faces(cs)[i];
      assert AddrOf(ds[j]) == AddrOf(cs[i]);
    }
  }

  /** Equal hashes route alike. */
  lemma HashFixesRouting(c: Cluster, d: Cluster)
    requires Clean(c) && Clean(d) && Hash(c) == Hash(d)
    ensures c.id == d.id
    ensures PrimaryAddrs(c) == PrimaryAddrs(d) && ReplicaAddrs(c.replicas) == ReplicaAddrs(d.replicas)
  {
    HashCanonical(c, d);
    FacesFixAddrs(c.replicas, d.replicas);
    FacesFixAddrs(d.replicas, c.replicas);
    if c.primary.Some? {
      assert PrimaryFace(d).Some?;
    }
  }

  lemma PartsEqual(a: string, b: string, rest: seq<string>, a': string, b': string, rest': seq<string>)
    ensures [a, b] + rest == [a', b'] + rest' <==> a == a' && b == b' && rest == rest'
  {
    var p, q := [a, b] + rest, [a', b'] + rest';
    assert p[0] == a && p[1] == b && p[2..] == rest;
    assert q[0] == a' && q[1] == b' && q[2..] == rest';
  }

  lemma WatcherHashCanonical(c: Cluster, d: Cluster)
    requires Clean(c) && Clean(d)
    ensures WatcherHash(c) == WatcherHash(d) <==>
            c.id == d.id && PrimaryFace(c) == PrimaryFace(d) &&
            multiset(LagFaces(c.replicas)) == multiset(LagFaces(d.replicas))
  {
    var cs := SortBy(Texts(LagFaces(c.replicas), LagFaceText), StringLeq);
    var ds := SortBy(Texts(LagFaces(d.replicas), LagFaceText), StringLeq);
    WatcherPartsLack(c);
    WatcherPartsLack(d);
    JoinInjective([c.id, PrimaryText(c)] + cs, [d.id, PrimaryText(d)] + ds, '|');
    PartsEqual(c.id, PrimaryText(c), cs, d.id, PrimaryText(d), ds);
    PrimaryTextCanonical(c, d);
    forall f, g | LagFaceText(f) == LagFaceText(g)
      ensures f == g
    {
      LagFaceTextInjective(f, g);
    }
    SortedTextsCanonical(LagFaces(c.replicas), LagFaces(d.replicas), LagFaceText);
  }

  // ---------------------------------------------------------------------------
  // The watcher's hash refines the coordinator's
  // ---------------------------------------------------------------------------

  function Forget(fs: seq<LagFace>): (gs: seq<Face>)
    ensures |gs| == |fs| && forall i | 0 <= i < |fs| :: gs[i] == fs[i].face
  {
    if fs == [] then [] else [fs[0].face] + Forget(fs[1..])
  }

  lemma {:induction false} ForgetAppend(fs: seq<LagFace>, gs: seq<LagFace>)
    ensures Forget(fs + gs) == Forget(fs) + Forget(gs)
  {
  }

  lemma ForgetWithout(gs: seq<LagFace>, k: nat)
    requires k < |gs|
    ensures multiset(Forget(gs)) == multiset(Forget(gs[..k] + gs[k + 1..])) + multiset{gs[k].face}
  {
    var head, one, tail := gs[..k], [gs[k]], gs[k + 1..];
    CutAt(gs, k);
    ForgetAppend(head, tail);
    ForgetAppend(head + one, tail);
    ForgetAppend(head, one);
    assert Forget(one) == [gs[k].face];
  }

  lemma {:induction false} ForgetMultiset(fs: seq<LagFace>, gs: seq<LagFace>)
    requires multiset(fs) == multiset(gs)
    ensures multiset(Forget(fs)) == multiset(Forget(gs))
    decreases |fs|
  {
    if fs == [] {
      assert |multiset(gs)| == 0;
    } else {
      assert fs[0] in multiset(gs);
      var k :| 0 <= k < |gs| && gs[k] == fs[0];
      WithoutOne(fs, gs, k);
      ForgetWithout(gs, k);
      ForgetMultiset(fs[1..], gs[..k] + gs[k + 1..]);
      assert Forget(fs) == [fs[0].face] + Forget(fs[1..]);
    }
  }

  lemma ForgetFaces(instances: seq<Instance>)
    ensures Forget(LagFaces(instances)) == Faces(instances)
  {
  }

  /** Whenever the coordinator's hash changes, so does the watcher's. */
  lemma WatcherHashRefines(c: Cluster, d: Cluster)
    requires Clean(c) && Clean(d)
    requires WatcherHash(c) == WatcherHash(d)
    ensures Hash(c) == Hash(d)
  {
    WatcherHashCanonical(c, d);
    HashCanonical(c, d);
    ForgetMultiset(LagFaces(c.replicas), LagFaces(d.replicas));
    ForgetFaces(c.replicas);
    ForgetFaces(d.replicas);
  }

  /** An instance whose host opens with another text. */
  function Prefixed(text: string, i: Instance): (p: Instance)
    ensures FaceText(FaceOf(p)) == text + ['|'] + FaceText(FaceOf(i))
    ensures '|' in p.host
  {
    var p := i.(host := text + "|" + i.host);
    assert p.host[|text|] == '|';
    p
  }

  /**
   With a '|' in a host the hash is ambiguous: any two replicas in text order hash like one replica
   whose host spells out the first of them.
   */
  lemma HashCollides(id: string, primary: Option<Instance>, a: Instance, b: Instance)
    requires StringLeq(FaceText(FaceOf(a)), FaceText(FaceOf(b)))
    ensures Hash(Cluster(id, "", primary, [Prefixed(FaceText(FaceOf(a)), b)])) == Hash(Cluster(id, "", primary, [a, b]))
  {
    var ta, tb := FaceText(FaceOf(a)), FaceText(FaceOf(b));
    var odd := Prefixed(ta, b);
    OneTextSorted(odd);
    TwoTextsSorted(a, b);
    var front := [id, PrimaryText(Cluster(id, "", primary, [odd]))];
    JoinMerges(front + [ta + ['|'] + tb], front + [ta, tb], front, ta, tb, [], '|');
  }

  lemma OneTextSorted(a: Instance)
    ensures SortBy(Texts(Faces([a]), FaceText), StringLeq) == [FaceText(FaceOf(a))]
  {
    assert Texts(Faces([a]), FaceText) == [FaceText(FaceOf(a))];
  }

  lemma TwoTextsSorted(a: Instance, b: Instance)
    requires StringLeq(FaceText(FaceOf(a)), FaceText(FaceOf(b)))
    ensures SortBy(Texts(Faces([a, b]), FaceText), StringLeq) == [FaceText(FaceOf(a)), FaceText(FaceOf(b))]
  {
    var ta, tb := FaceText(FaceOf(a)), FaceText(FaceOf(b));
    assert Texts(Faces([a, b]), FaceText) == [ta, tb];
    assert [ta, tb][1..] == [tb];
    assert SortBy([tb], StringLeq) == [tb];
  }

  /** Joining does not see a separator inside a part. */
  lemma {:induction false} JoinMerges(one: seq<string>, two: seq<string>, front: seq<string>, a: string, b: string,
                                      back: seq<string>, c: char)
    requires one == front + [a + [c] + b] + back && two == front + [a, b] + back
    ensures Join(one, c) == Join(two, c)
    decreases |front|
  {
    if front == [] {
      MergedHead(one, two, a, b, back, c);
    } else {
      assert one[0] == front[0] && two[0] == front[0];
      JoinMerges(one[1..], two[1..], front[1..], a, b, back, c);
    }
  }

  lemma MergedHead(one: seq<string>, two: seq<string>, a: string, b: string, back: seq<string>, c: char)
    requires one == [a + [c] + b] + back && two == [a, b] + back
    ensures Join(one, c) == Join(two, c)
  {
    assert one[1..] == back && two[1..] == [b] + back && two[1..][1..] == back;
    assert back != [] ==> a + [c] + b + [c] + Join(back, c) == a + [c] + (b + [c] + Join(back, c));
  }

  // ---------------------------------------------------------------------------
  // Which topologies their hash identifies
  // ---------------------------------------------------------------------------

  lemma PrimaryTextInjective(c: Cluster, d: Cluster)
    requires PrimaryText(c) == PrimaryText(d)
    ensures PrimaryFace(c) == PrimaryFace(d)
  {
    if c.primary.Some? && d.primary.Some? {
      FaceTextInjective(FaceOf(c.primary.value), FaceOf(d.primary.value));
    } else if c.primary.Some? {
      NotNull(FaceOf(c.primary.value));
    } else if d.primary.Some? {
      NotNull(FaceOf(d.primary.value));
    }
  }

  lemma NotNull(f: Face)
    ensures FaceText(f) != "null"
  {
    assert FaceText(f)[|InstanceId(f.addr)|] == ':';
  }

  /** The hash as the id, a separator and the rest. */
  lemma HashOpens(c: Cluster)
    ensures var rest := [PrimaryText(c)] + SortBy(Texts(Faces(c.replicas), FaceText), StringLeq);
            Hash(c) == c.id + ['|'] + Join(rest, '|')
  {
    JoinOpens(c.id, PrimaryText(c), SortBy(Texts(Faces(c.replicas), FaceText), StringLeq));
  }

  lemma JoinOpens(id: string, text: string, texts: seq<string>)
    ensures Join([id, text] + texts, '|') == id + ['|'] + Join([text] + texts, '|')
  {
    assert ([id, text] + texts)[1..] == [text] + texts;
  }

  lemma OneSeparator(a: string, b: string, a': string, b': string, c: char)
    requires a + [c] + b == a' + [c] + b' && Lacks(a, c) && Lacks(b, c)
    ensures a == a' && b == b'
  {
    var s := a + [c] + b;
    assert s[|a'|] == c;
    assert forall i | |a| < i < |s| :: s[i] == b[i - |a| - 1];
    assert forall i | 0 <= i < |a| :: s[i] == a[i];
    assert |a| == |a'|;
    assert s[..|a|] == a && (a' + [c] + b')[..|a|] == a';
    assert s[|a| + 1..] == b && (a' + [c] + b')[|a| + 1..] == b';
  }

  lemma WithoutReplicas(c: Cluster, d: Cluster)
    requires Clean(c) && c.replicas == [] && Hash(d) == Hash(c)
    ensures SameTopology(c, d)
  {
    var ds := SortBy(Texts(Faces(d.replicas), FaceText), StringLeq);
    HashOpens(c);
    HashOpens(d);
    PrimaryTextCanonical(c, c);
    assert [PrimaryText(c)] + SortBy(Texts(Faces(c.replicas), FaceText), StringLeq) == [PrimaryText(c)];
    OneSeparator(c.id, PrimaryText(c), d.id, Join([PrimaryText(d)] + ds, '|'), '|');
    if ds == [] {
      assert [PrimaryText(d)] + ds == [PrimaryText(d)];
      PrimaryTextInjective(c, d);
    } else {
      assert Join([PrimaryText(d)] + ds, '|')[|PrimaryText(d)|] == '|';
    }
  }

  lemma TextsWithout(replicas: seq<Instance>, at: nat)
    requires at < |replicas|
    ensures var texts := Texts(Faces(replicas), FaceText);
            Texts(Faces(replicas[..at] + replicas[at + 1..]), FaceText) == texts[..at] + texts[at + 1..]
  {
    var texts, rest := Texts(Faces(replicas), FaceText), replicas[..at] + replicas[at + 1..];
    forall i | 0 <= i < |rest|
      ensures Texts(Faces(rest), FaceText)[i] == (texts[..at] + texts[at + 1..])[i]
    {
      assert rest[i] == replicas[if i < at then i else i + 1];
    }
  }

  lemma MergedJoin(id: string, text: string, sorted: seq<string>)
    requires sorted != []
    ensures Join([id, text + ['|'] + sorted[0]] + sorted[1..], '|') == Join([id, text] + sorted, '|')
  {
    var merged := [id, text + ['|'] + sorted[0]] + sorted[1..];
    JoinMerges(merged, [id, text] + sorted, [id], text, sorted[0], sorted[1..], '|');
  }

  /** The cluster whose primary swallows the replica that sorts first. */
  lemma MergedTwin(c: Cluster) returns (d: Cluster)
    requires c.replicas != []
    ensures Hash(d) == Hash(c) && !SameTopology(c, d)
  {
    var texts := Texts(Faces(c.replicas), FaceText);
    StringOrder();
    var at := SortHead(texts, StringLeq);
    var primary := Prefixed(PrimaryText(c), c.replicas[at]);
    d := Cluster(c.id, c.name, Some(primary), c.replicas[..at] + c.replicas[at + 1..]);
    TextsWithout(c.replicas, at);
    SortedRest(texts, at, StringLeq);
    MergedJoin(c.id, PrimaryText(c), SortBy(texts, StringLeq));
    assert |PrimaryText(d)| > |PrimaryText(c)|;
  }

  /** The hash of a topology without replicas. */
  lemma HashAlone(id: string, name: string, primary: Option<Instance>)
    ensures Hash(Cluster(id, name, primary, [])) == id + ['|'] + PrimaryText(Cluster(id, name, primary, []))
  {
    var c := Cluster(id, name, primary, []);
    HashOpens(c);
    assert [PrimaryText(c)] + SortBy(Texts(Faces(c.replicas), FaceText), StringLeq) == [PrimaryText(c)];
  }

  /** A '|' belongs to the id or to the primary's host: the hash does not tell. */
  lemma BarMoves(id: string, name: string, x: string, p: Instance)
    ensures Hash(Cluster(id, name, Some(Prefixed(x, p)), [])) == Hash(Cluster(id + ['|'] + x, name, Some(p), []))
  {
    HashAlone(id, name, Some(Prefixed(x, p)));
    HashAlone(id + ['|'] + x, name, Some(p));
    Regroups(id, x, FaceText(FaceOf(p)));
  }

  lemma Regroups(a: string, b: string, rest: string)
    ensures a + ['|'] + (b + ['|'] + rest) == (a + ['|'] + b) + ['|'] + rest
  {
  }

  /** A '|' in the primary's host read as part of the id. */
  lemma HostTwin(c: Cluster, x: string, y: string) returns (d: Cluster)
    requires c.replicas == [] && c.primary.Some? && c.primary.value.host == x + ['|'] + y
    ensures Hash(d) == Hash(c) && d.id != c.id
  {
    var p := c.primary.value.(host := y);
    d := Cluster(c.id + ['|'] + x, c.name, Some(p), []);
    assert c == Cluster(c.id, c.name, Some(Prefixed(x, p)), []);
    BarMoves(c.id, c.name, x, p);
    assert |d.id| > |c.id|;
  }

  /** A '|' in the id read as part of the primary's host. */
  lemma IdTwin(c: Cluster, x: string, y: string) returns (d: Cluster)
    requires c.replicas == [] && c.primary.Some? && c.id == x + ['|'] + y
    ensures Hash(d) == Hash(c) && d.id != c.id
  {
    d := Cluster(x, c.name, Some(Prefixed(y, c.primary.value)), []);
    assert c == Cluster(x + ['|'] + y, c.name, c.primary, []);
    BarMoves(x, c.name, y, c.primary.value);
    assert |d.id| < |c.id|;
  }

  /** A text that holds `c` can be cut there. */
  lemma CutAtChar(s: string, c: char) returns (x: string, y: string)
    requires !Lacks(s, c)
    ensures s == x + [c] + y
  {
    var i :| 0 <= i < |s| && s[i] == c;
    x, y := s[..i], s[i + 1..];
  }

  /** Only a topology with neither primary nor replicas has a hash that ends in `l`. */
  lemma LastLetter(c: Cluster)
    ensures Hash(c) != "" && (Hash(c)[|Hash(c)| - 1] == 'l' <==> c.primary.None? && c.replicas == [])
  {
    if c.replicas == [] {
      HashAlone(c.id, c.name, c.primary);
      if c.primary.Some? {
        FaceTextEnds(FaceOf(c.primary.value));
      }
    } else {
      var f := LastFace(c);
      FaceTextEnds(f);
    }
  }

  lemma LastFace(c: Cluster) returns (f: Face)
    requires c.replicas != []
    ensures Hash(c) != "" && Hash(c)[|Hash(c)| - 1] == FaceText(f)[|FaceText(f)| - 1]
  {
    var texts := Texts(Faces(c.replicas), FaceText);
    var i := LastSorted(texts);
    f := FaceOf(c.replicas[i]);
    FaceTextEnds(f);
    HashEnds(c, FaceText(f));
  }

  lemma HashEnds(c: Cluster, last: string)
    requires c.replicas != [] && last != ""
    requires last == SortBy(Texts(Faces(c.replicas), FaceText), StringLeq)[|c.replicas| - 1]
    ensures Hash(c) != "" && Hash(c)[|Hash(c)| - 1] == last[|last| - 1]
  {
    var rest := SortBy(Texts(Faces(c.replicas), FaceText), StringLeq);
    PartsEnd(Hash(c), [c.id, PrimaryText(c)], rest, last);
  }

  lemma LastSorted(texts: seq<string>) returns (i: nat)
    requires texts != []
    ensures i < |texts| && texts[i] == SortBy(texts, StringLeq)[|texts| - 1]
  {
    var last := SortBy(texts, StringLeq)[|texts| - 1];
    assert last in multiset(texts);
    i :| i < |texts| && texts[i] == last;
  }

  lemma PartsEnd(s: string, front: seq<string>, rest: seq<string>, last: string)
    requires s == Join(front + rest, '|') && rest != [] && rest[|rest| - 1] == last != ""
    ensures s != "" && s[|s| - 1] == last[|last| - 1]
  {
    JoinEnds(front + rest, '|');
  }

  lemma FaceTextEnds(f: Face)
    ensures FaceText(f) != "" && FaceText(f)[|FaceText(f)| - 1] == StateText(f.state)[|StateText(f.state)| - 1] != 'l'
  {
  }

  lemma {:induction false} JoinEnds(parts: seq<string>, sep: char)
    requires parts != [] && parts[|parts| - 1] != ""
    ensures Join(parts, sep) != ""
    ensures var last := parts[|parts| - 1]; Join(parts, sep)[|Join(parts, sep)| - 1] == last[|last| - 1]
  {
    if |parts| == 1 {
    } else {
      JoinEnds(parts[1..], sep);
    }
  }

  lemma NobodyIdentified(c: Cluster, d: Cluster)
    requires c.primary.None? && c.replicas == [] && Hash(d) == Hash(c)
    ensures SameTopology(c, d)
  {
    LastLetter(c);
    LastLetter(d);
    HashAlone(c.id, c.name, c.primary);
    HashAlone(d.id, d.name, d.primary);
    assert c.id == Hash(c)[..|Hash(c)| - 5] && d.id == Hash(d)[..|Hash(d)| - 5];
  }

  /** Another topology with the same hash, where there is one. */
  lemma AnyTwin(c: Cluster) returns (d: Cluster)
    requires c.replicas != [] || (c.primary.Some? && !Clean(c))
    ensures Hash(d) == Hash(c) && !SameTopology(c, d)
  {
    if c.replicas != [] {
      d := MergedTwin(c);
    } else if Lacks(c.id, '|') {
      var x, y := CutAtChar(c.primary.value.host, '|');
      d := HostTwin(c, x, y);
    } else {
      var x, y := CutAtChar(c.id, '|');
      d := IdTwin(c, x, y);
    }
  }

  /**
   Exactly when the hash identifies a topology: without replicas, and with a primary only if neither its host nor
   the id holds a '|'. With any replica another topology, whose primary's host spells out primary and first replica,
   hashes alike.
   */
  lemma IdentifiesExactly(c: Cluster)
    ensures (forall d | Hash(d) == Hash(c) :: SameTopology(c, d)) <==>
            c.replicas == [] && (c.primary.Some? ==> Clean(c))
  {
    if c.replicas != [] || (c.primary.Some? && !Clean(c)) {
      var d := AnyTwin(c);
      assert !SameTopology(c, d);
    } else {
      forall d | Hash(d) == Hash(c)
        ensures SameTopology(c, d)
      {
        if c.primary.Some? {
          WithoutReplicas(c, d);
        } else {
          NobodyIdentified(c, d);
        }
      }
    }
  }
}
