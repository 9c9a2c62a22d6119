/** The backup manager's records: what one backup remembers, the table of
    records per instance, and how one record is the base of another. */
module BackupRecords {
  import opened Text

  datatype Kind = Snapshot | Full | Incremental | OtherKind(name: string)

  datatype Status = Pending | Running | Completed | Failed

  /** What a record holds from its creation on; createdAt is in nanoseconds since
      the Unix epoch. The one field written later, Verified, is kept beside the
      records as a set of IDs. */
  datatype Info = Info(
    id: string, instance: string, kind: Kind, status: Status, createdAt: int,
    dataset: string, snapshot: string, location: string, base: string)

  type Table = map<string, seq<Info>>

  function FullName(b: Info): string { b.dataset + "@" + b.snapshot }

  /** An incremental stream recorded by `dependent` was sent against b's snapshot. */
  predicate IsBaseOf(b: Info, dependent: Info) {
    b.dataset != "" && b.snapshot != "" && dependent.id != b.id && dependent.base == FullName(b)
  }

  ghost predicate Recorded(t: Table, b: Info) {
    b.instance in t && b in t[b.instance]
  }

  ghost predicate DistinctIds(s: seq<Info>) {
    forall i, j :: 0 <= i < j < |s| ==> s[i].id != s[j].id
  }

  /** Records sit under their own instance and no ID occurs twice. */
  ghost predicate ValidTable(t: Table) {
    && (forall inst, i :: inst in t && 0 <= i < |t[inst]| ==> t[inst][i].instance == inst)
    && (forall inst :: inst in t ==> DistinctIds(t[inst]))
    && (forall b, c :: Recorded(t, b) && Recorded(t, c) && b.id == c.id ==> b == c)
  }

  /** Some record's stream was sent against b. */
  ghost predicate Referenced(t: Table, b: Info) {
    exists x :: Recorded(t, x) && IsBaseOf(b, x)
  }

  ghost predicate HasId(t: Table, id: string) {
    exists b :: Recorded(t, b) && b.id == id
  }

  // ---- removing one record from a list ----

  function Without(s: seq<Info>, id: string): (r: seq<Info>)
    ensures forall b :: b in r <==> b in s && b.id != id
    ensures |r| <= |s|
  {
    if s == [] then []
    else if s[0].id == id then Without(s[1..], id)
    else [s[0]] + Without(s[1..], id)
  }

  lemma WithoutUnchanged(s: seq<Info>, id: string)
    requires forall b :: b in s ==> b.id != id
    ensures Without(s, id) == s
  {
    if s != [] {
      assert s[0] in s;
      WithoutUnchanged(s[1..], id);
    }
  }

  lemma {:induction false} WithoutDistinct(s: seq<Info>, id: string)
    requires DistinctIds(s)
    ensures DistinctIds(Without(s, id))
  {
    if s != [] {
      assert DistinctIds(s[1..]);
      WithoutDistinct(s[1..], id);
      var r := Without(s[1..], id);
      forall j | 0 <= j < |r| ensures r[j].id != s[0].id {
        assert r[j] in r && r[j] in s[1..];
      }
    }
  }

  /** Cutting out the one position that holds an ID is filtering that ID away. */
  lemma {:induction false} SpliceIsWithout(s: seq<Info>, k: nat)
    requires k < |s| && DistinctIds(s)
    ensures s[..k] + s[k + 1..] == Without(s, s[k].id)
  {
    if k == 0 {
      WithoutUnchanged(s[1..], s[0].id);
    } else {
      assert DistinctIds(s[1..]);
      SpliceIsWithout(s[1..], k - 1);
      assert s[..k] + s[k + 1..] == [s[0]] + (s[1..][..k - 1] + s[1..][k..]);
    }
  }

  /** The table after deleting b: a failed data removal puts the record back at the end. */
  function AfterDelete(t: Table, b: Info, removalFails: bool): Table
    requires b.instance in t
  {
    var rest := Without(t[b.instance], b.id);
    t[b.instance := if removalFails then rest + [b] else rest]
  }

  lemma AfterDeleteValid(t: Table, b: Info, removalFails: bool)
    requires ValidTable(t) && Recorded(t, b)
    ensures ValidTable(AfterDelete(t, b, removalFails))
    ensures forall c :: Recorded(AfterDelete(t, b, removalFails), c) <==> Recorded(t, c) && (removalFails || c.id != b.id)
  {
    var t' := AfterDelete(t, b, removalFails);
    var s := t[b.instance];
    WithoutDistinct(s, b.id);
    var w := Without(s, b.id);
    forall c ensures Recorded(t', c) <==> Recorded(t, c) && (removalFails || c.id != b.id) {
      if c.instance == b.instance {
        assert t'[b.instance] == if removalFails then w + [b] else w;
        if removalFails && Recorded(t, c) && c.id == b.id { assert c == b; }
      }
    }
    forall i | 0 <= i < |w| ensures w[i].instance == b.instance && w[i].id != b.id {
      assert w[i] in w;
      assert w[i] in s;
    }
  }
}
