/** The statistics view of the heap monitor: the records built from the
    tracked index, the snapshot whose sizes they report, and the ordering
    that sort_stats puts them in. */
module MemStats {
  import opened Util
  import opened Heapmonitor

  /** A tracked object as the statistics read it back: its class, its
      lifetime, its truncated repr and its size samples. */
  datatype ObjectStat = ObjectStat(cls: nat, birth: int, death: Option<int>, repr: string,
                                   footprint: seq<Sample>)

  /** A snapshot: when it was taken and how much tracked memory it counted. */
  datatype Snapshot = Snapshot(timestamp: int, trackedTotal: int)

  /** A tracked object with the attributes added for sorting: the name it is
      indexed under, its size at the largest snapshot and its largest size. */
  datatype Record = Record(classname: string, tsize: int, birth: int, death: Option<int>,
                           name: nat, repr: string, size: int)

  // ---------------------------------------------------------------------
  // Sort criteria

  datatype Criterion = ClassNameKey | TSize | Birth | Death | Name | Repr | Size

  /** The order sort_stats uses when it is given no criteria. */
  const AllCriteria: seq<Criterion> := [ClassNameKey, TSize, Birth, Death, Name, Repr, Size]

  function CriterionName(c: Criterion): string
  {
    match c
    case ClassNameKey => "classname"
    case TSize => "tsize"
    case Birth => "birth"
    case Death => "death"
    case Name => "name"
    case Repr => "repr"
    case Size => "size"
  }

  /** The criterion an argument names, if any. */
  function CriterionOf(s: string): (r: Option<Criterion>)
    ensures r.Some? ==> CriterionName(r.value) == s
  {
    if s == "classname" then Some(ClassNameKey)
    else if s == "tsize" then Some(TSize)
    else if s == "birth" then Some(Birth)
    else if s == "death" then Some(Death)
    else if s == "name" then Some(Name)
    else if s == "repr" then Some(Repr)
    else if s == "size" then Some(Size)
    else None
  }

  /** Every criterion is recognised by its own name. */
  lemma CriterionRoundTrip(c: Criterion)
    ensures CriterionOf(CriterionName(c)) == Some(c)
  {
    match c
    case ClassNameKey =>
    case TSize => assert CriterionName(c) != "classname";
    case Birth => assert CriterionName(c)[0] == 'b';
    case Death => assert CriterionName(c)[0] == 'd';
    case Name => assert CriterionName(c)[0] == 'n';
    case Repr => assert CriterionName(c)[0] == 'r';
    case Size => assert CriterionName(c)[0] == 's';
  }

  predicate AllValid(args: seq<string>)
  {
    forall i :: 0 <= i < |args| ==> CriterionOf(args[i]).Some?
  }

  /** The criteria sort_stats applies: ValueError when an argument is not a
      criterion, every criterion when there are no arguments. */
  function ParseCriteria(args: seq<string>): (r: Result<seq<Criterion>, HeapError>)
    ensures r.Ok? <==> AllValid(args)
    ensures r.Err? ==> r.error == ValueError
    ensures r.Ok? && args == [] ==> r.value == AllCriteria
    ensures r.Ok? && args != [] ==> |r.value| == |args|
    ensures r.Ok? && args != [] ==>
      forall i :: 0 <= i < |args| ==> CriterionName(r.value[i]) == args[i]
  {
    if !AllValid(args) then Err(ValueError)
    else if args == [] then Ok(AllCriteria)
    else Ok(seq(|args|, i requires 0 <= i < |args| => CriterionOf(args[i]).value))
  }

  /** The named criteria are accepted, whatever their order or repetition. */
  lemma ParseNames(cs: seq<Criterion>)
    ensures ParseCriteria(seq(|cs|, i requires 0 <= i < |cs| => CriterionName(cs[i]))).Ok?
  {
    var args := seq(|cs|, i requires 0 <= i < |cs| => CriterionName(cs[i]));
    forall i | 0 <= i < |args| ensures CriterionOf(args[i]).Some? {
      CriterionRoundTrip(cs[i]);
    }
  }

  // ---------------------------------------------------------------------
  // Comparison

  /** The value of one attribute, in the three shapes the attributes take. */
  datatype Key = IntKey(i: int) | StrKey(s: string) | OptKey(o: Option<int>)

  function Field(r: Record, c: Criterion): Key
  {
    match c
    case ClassNameKey => StrKey(r.classname)
    case TSize => IntKey(r.tsize)
    case Birth => IntKey(r.birth)
    case Death => OptKey(r.death)
    case Name => IntKey(r.name)
    case Repr => StrKey(r.repr)
    case Size => IntKey(r.size)
  }

  function CmpInt(a: int, b: int): int
  {
    if a < b then -1 else if a > b then 1 else 0
  }

  function CmpStr(a: string, b: string): int
  {
    if StrLess(a, b) then -1 else if StrLess(b, a) then 1 else 0
  }

  /** Python 2's cmp on a death time: None sorts before every number. */
  function CmpOpt(a: Option<int>, b: Option<int>): int
  {
    match (a, b)
    case (None, None) => 0
    case (None, Some(_)) => -1
    case (Some(_), None) => 1
    case (Some(x), Some(y)) => CmpInt(x, y)
  }

  function Rank(k: Key): int
  {
    match k
    case IntKey(_) => 0
    case StrKey(_) => 1
    case OptKey(_) => 2
  }

  /** cmp on two attribute values (values of one attribute always have the
      same shape; mixed shapes are ordered by shape). */
  function CmpKey(a: Key, b: Key): (r: int)
    ensures -1 <= r <= 1
  {
    match (a, b)
    case (IntKey(x), IntKey(y)) => CmpInt(x, y)
    case (StrKey(x), StrKey(y)) => CmpStr(x, y)
    case (OptKey(x), OptKey(y)) => CmpOpt(x, y)
    case _ => CmpInt(Rank(a), Rank(b))
  }

  lemma CmpKeyAntisymmetric(a: Key, b: Key)
    ensures CmpKey(a, b) == -CmpKey(b, a)
  {
    if a.StrKey? && b.StrKey? && StrLess(a.s, b.s) {
      StrLessAsymmetric(a.s, b.s);
    }
  }

  lemma CmpKeyZero(a: Key, b: Key)
    ensures CmpKey(a, b) == 0 <==> a == b
  {
    if a.StrKey? && b.StrKey? {
      if a.s == b.s { StrLessIrreflexive(a.s); } else { StrLessTotal(a.s, b.s); }
    }
  }

  lemma CmpKeyTransitive(a: Key, b: Key, c: Key)
    requires CmpKey(a, b) <= 0 && CmpKey(b, c) <= 0
    ensures CmpKey(a, c) <= 0
  {
    CmpKeyZero(a, b);
    CmpKeyZero(b, c);
    if a.StrKey? && b.StrKey? && c.StrKey? && a != b && b != c {
      StrLessTransitive(a.s, b.s, c.s);
    }
  }

  predicate Descending(c: Criterion)
  {
    c == TSize || c == Size || c == Death
  }

  /** The comparison of one criterion: cmp of the attribute, negated for
      tsize, size and death, which sort largest first. */
  function Directed(c: Criterion, a: Record, b: Record): int
  {
    var res := CmpKey(Field(a, c), Field(b, c));
    if Descending(c) then -res else res
  }

  /** _sort: the first criterion that tells the records apart decides. */
  function Cmp(a: Record, b: Record, crit: seq<Criterion>): int
  {
    if crit == [] then 0
    else
      var res := Directed(crit[0], a, b);
      if res != 0 then res else Cmp(a, b, crit[1..])
  }

  lemma DirectedFacts(c: Criterion, a: Record, b: Record, x: Record)
    ensures Directed(c, a, b) == -Directed(c, b, a)
    ensures Directed(c, a, b) == 0 <==> Field(a, c) == Field(b, c)
    ensures Directed(c, a, b) <= 0 && Directed(c, b, x) <= 0 ==> Directed(c, a, x) <= 0
  {
    CmpKeyAntisymmetric(Field(a, c), Field(b, c));
    CmpKeyZero(Field(a, c), Field(b, c));
    if Descending(c) {
      if Directed(c, a, b) <= 0 && Directed(c, b, x) <= 0 {
        CmpKeyTransitive(Field(x, c), Field(b, c), Field(a, c));
        CmpKeyAntisymmetric(Field(x, c), Field(a, c));
      }
    } else {
      if Directed(c, a, b) <= 0 && Directed(c, b, x) <= 0 {
        CmpKeyTransitive(Field(a, c), Field(b, c), Field(x, c));
      }
    }
  }

  /** Swapping the records negates the comparison. */
  lemma {:induction false} CmpAntisymmetric(a: Record, b: Record, crit: seq<Criterion>)
    ensures Cmp(a, b, crit) == -Cmp(b, a, crit)
  {
    if crit != [] {
      DirectedFacts(crit[0], a, b, b);
      CmpAntisymmetric(a, b, crit[1..]);
    }
  }

  /** The comparison orders the records consistently. */
  lemma {:induction false} CmpTransitive(a: Record, b: Record, x: Record, crit: seq<Criterion>)
    requires Cmp(a, b, crit) <= 0 && Cmp(b, x, crit) <= 0
    ensures Cmp(a, x, crit) <= 0
  {
    if crit != [] {
      var c := crit[0];
      DirectedFacts(c, a, b, x);
      DirectedFacts(c, b, x, a);
      DirectedFacts(c, a, x, b);
      if Directed(c, a, b) == 0 && Directed(c, b, x) == 0 {
        CmpTransitive(a, b, x, crit[1..]);
      }
    }
  }

  // ---------------------------------------------------------------------
  // Sorting (list.sort with _sort as comparison)

  predicate Sorted(s: seq<Record>, crit: seq<Criterion>)
  {
    forall i, j :: 0 <= i < j < |s| ==> Cmp(s[i], s[j], crit) <= 0
  }

  /** Insert x after the records that do not sort after it. */
  function Insert(x: Record, s: seq<Record>, crit: seq<Criterion>): (r: seq<Record>)
    ensures multiset(r) == multiset(s) + multiset{x}
  {
    if s == [] then [x]
    else if Cmp(x, s[0], crit) < 0 then [x] + s
    else
      assert s == [s[0]] + s[1..];
      [s[0]] + Insert(x, s[1..], crit)
  }

  /** The records in the order the comparison gives; equal records keep
      their order. */
  function SortBy(s: seq<Record>, crit: seq<Criterion>): (r: seq<Record>)
    ensures multiset(r) == multiset(s)
  {
    if s == [] then []
    else
      assert s == s[..|s| - 1] + [s[|s| - 1]];
      Insert(s[|s| - 1], SortBy(s[..|s| - 1], crit), crit)
  }

  lemma {:induction false} InsertSorted(x: Record, s: seq<Record>, crit: seq<Criterion>)
    requires Sorted(s, crit)
    ensures Sorted(Insert(x, s, crit), crit)
  {
    if s == [] {
    } else if Cmp(x, s[0], crit) < 0 {
      var r := [x] + s;
      forall i, j | 0 <= i < j < |r| ensures Cmp(r[i], r[j], crit) <= 0 {
        if i == 0 && j > 1 {
          CmpTransitive(x, s[0], s[j - 1], crit);
        }
      }
    } else {
      CmpAntisymmetric(x, s[0], crit);
      var t := Insert(x, s[1..], crit);
      InsertSorted(x, s[1..], crit);
      var r := [s[0]] + t;
      forall k | 0 <= k < |t| ensures Cmp(s[0], t[k], crit) <= 0 {
        assert t[k] in multiset(t);
        if t[k] != x {
          assert t[k] in multiset(s[1..]);
          var m :| 0 <= m < |s[1..]| && s[1..][m] == t[k];
          assert s[m + 1] == t[k];
        }
      }
      forall i, j | 0 <= i < j < |r| ensures Cmp(r[i], r[j], crit) <= 0 {
        if i == 0 { assert r[j] == t[j - 1]; }
      }
    }
  }

  /** The result of the sort is ordered by the comparison. */
  lemma {:induction false} SortBySorted(s: seq<Record>, crit: seq<Criterion>)
    ensures Sorted(SortBy(s, crit), crit)
  {
    if s != [] {
      SortBySorted(s[..|s| - 1], crit);
      InsertSorted(s[|s| - 1], SortBy(s[..|s| - 1], crit), crit);
    }
  }

  /** A sorted list is ordered by its first criterion above all. */
  lemma SortedByFirst(s: seq<Record>, crit: seq<Criterion>)
    requires Sorted(s, crit) && crit != []
    ensures forall i, j :: 0 <= i < j < |s| ==> Directed(crit[0], s[i], s[j]) <= 0
  {
    forall i, j | 0 <= i < j < |s| ensures Directed(crit[0], s[i], s[j]) <= 0 {
      assert Cmp(s[i], s[j], crit) <= 0;
    }
  }

  /** With no arguments the records come grouped by class name in ascending
      order, and within a class the largest size at the chosen snapshot first. */
  lemma DefaultOrder(s: seq<Record>)
    requires Sorted(s, AllCriteria)
    ensures forall i, j :: 0 <= i < j < |s| ==> s[i].classname == s[j].classname || StrLess(s[i].classname, s[j].classname)
    ensures forall i, j :: 0 <= i < j < |s| && s[i].classname == s[j].classname ==> s[i].tsize >= s[j].tsize
  {
    SortedByFirst(s, AllCriteria);
    forall i, j | 0 <= i < j < |s|
      ensures s[i].classname == s[j].classname || StrLess(s[i].classname, s[j].classname)
      ensures s[i].classname == s[j].classname ==> s[i].tsize >= s[j].tsize
    {
      assert Directed(ClassNameKey, s[i], s[j]) <= 0;
      if s[i].classname != s[j].classname {
        StrLessTotal(s[i].classname, s[j].classname);
      } else {
        StrLessIrreflexive(s[i].classname);
        assert Cmp(s[i], s[j], AllCriteria) == Cmp(s[i], s[j], AllCriteria[1..]);
        SortedByFirst([s[i], s[j]], AllCriteria[1..]);
      }
    }
  }

  /** Sorted by "size" alone: the largest objects come first. */
  lemma SizeOrder(s: seq<Record>)
    requires Sorted(s, [Size])
    ensures forall i, j :: 0 <= i < j < |s| ==> s[i].size >= s[j].size
  {
    SortedByFirst(s, [Size]);
  }

  /** Sorted by "death" alone: the latest deaths first, live objects last. */
  lemma DeathOrder(s: seq<Record>)
    requires Sorted(s, [Death])
    ensures forall i, j :: 0 <= i < j < |s| && s[i].death.None? ==> s[j].death.None?
    ensures forall i, j :: 0 <= i < j < |s| && s[j].death.Some? ==>
      s[i].death.Some? && s[i].death.value >= s[j].death.value
  {
    SortedByFirst(s, [Death]);
  }

  // ---------------------------------------------------------------------
  // The snapshot the records are sized at

  /** The snapshot loop of _init_sort as written: maxsize is never raised, so
      every snapshot that tracked anything replaces the previous choice. */
  function TMaxAsWritten(fp: seq<Snapshot>, tmax: Option<int>, maxsize: int): Option<int>
  {
    if fp == [] then tmax
    else TMaxAsWritten(fp[1..], if fp[0].trackedTotal > maxsize then Some(fp[0].timestamp) else tmax, maxsize)
  }

  /** fp[i] is the last snapshot that tracked anything. */
  predicate LastPositive(fp: seq<Snapshot>, i: int)
  {
    0 <= i < |fp| && fp[i].trackedTotal > 0 && forall j :: i < j < |fp| ==> fp[j].trackedTotal <= 0
  }

  /** As written, the choice is the last snapshot that tracked anything. */
  lemma {:induction false} TMaxIsLastPositive(fp: seq<Snapshot>, tmax: Option<int>)
    ensures (forall i :: 0 <= i < |fp| ==> fp[i].trackedTotal <= 0) ==> TMaxAsWritten(fp, tmax, 0) == tmax
    ensures forall i :: LastPositive(fp, i) ==> TMaxAsWritten(fp, tmax, 0) == Some(fp[i].timestamp)
  {
    if fp != [] {
      var next := if fp[0].trackedTotal > 0 then Some(fp[0].timestamp) else tmax;
      TMaxIsLastPositive(fp[1..], next);
      forall i | LastPositive(fp, i)
        ensures TMaxAsWritten(fp, tmax, 0) == Some(fp[i].timestamp)
      {
        if i > 0 {
          assert fp[1..][i - 1] == fp[i];
          assert forall j :: i - 1 < j < |fp[1..]| ==> fp[1..][j] == fp[j + 1];
        } else {
          assert forall j :: 0 <= j < |fp[1..]| ==> fp[1..][j] == fp[j + 1];
        }
      }
      if forall i :: 0 <= i < |fp| ==> fp[i].trackedTotal <= 0 {
        assert forall j :: 0 <= j < |fp[1..]| ==> fp[1..][j] == fp[j + 1];
      }
    }
  }

  /** The snapshot loop with maxsize raised at every new maximum. */
  function LargestFrom(fp: seq<Snapshot>, tmax: Option<int>, maxsize: int): Option<int>
  {
    if fp == [] then tmax
    else if fp[0].trackedTotal > maxsize then LargestFrom(fp[1..], Some(fp[0].timestamp), fp[0].trackedTotal)
    else LargestFrom(fp[1..], tmax, maxsize)
  }

  /** The snapshot that tracked the largest amount of memory. */
  function LargestSnapshot(fp: seq<Snapshot>): Option<int>
  {
    LargestFrom(fp, None, 0)
  }

  /** fp[i] is the first snapshot with the largest total, and that total is
      above bound. */
  predicate FirstLargest(fp: seq<Snapshot>, i: int, bound: int)
  {
    0 <= i < |fp| && fp[i].trackedTotal > bound
    && (forall j :: 0 <= j < |fp| ==> fp[j].trackedTotal <= fp[i].trackedTotal)
    && (forall j :: 0 <= j < i ==> fp[j].trackedTotal < fp[i].trackedTotal)
  }

  /** A first largest snapshot of the tail stays first and largest when the
      head is no larger than the tail's bound. */
  lemma FirstLargestShift(fp: seq<Snapshot>, i: int, bound: int, lower: int)
    requires fp != [] && FirstLargest(fp[1..], i, bound)
    requires fp[0].trackedTotal <= bound && lower <= bound
    ensures FirstLargest(fp, i + 1, lower)
  {
    assert forall j :: 1 <= j < |fp| ==> fp[j] == fp[1..][j - 1];
  }

  lemma {:induction false} LargestFromIsMax(fp: seq<Snapshot>, tmax: Option<int>, maxsize: int)
    ensures (forall j :: 0 <= j < |fp| ==> fp[j].trackedTotal <= maxsize) ==> LargestFrom(fp, tmax, maxsize) == tmax
    ensures (exists j :: 0 <= j < |fp| && fp[j].trackedTotal > maxsize) ==>
      exists i :: FirstLargest(fp, i, maxsize) && LargestFrom(fp, tmax, maxsize) == Some(fp[i].timestamp)
  {
    if fp != [] {
      var t := fp[1..];
      if fp[0].trackedTotal > maxsize {
        var m := fp[0].trackedTotal;
        LargestFromIsMax(t, Some(fp[0].timestamp), m);
        if exists j :: 0 <= j < |t| && t[j].trackedTotal > m {
          var i :| FirstLargest(t, i, m) && LargestFrom(t, Some(fp[0].timestamp), m) == Some(t[i].timestamp);
          FirstLargestShift(fp, i, m, maxsize);
          assert fp[i + 1] == t[i];
        } else {
          assert forall j :: 1 <= j < |fp| ==> fp[j] == t[j - 1];
          assert FirstLargest(fp, 0, maxsize);
        }
      } else {
        LargestFromIsMax(t, tmax, maxsize);
        if exists j :: 0 <= j < |fp| && fp[j].trackedTotal > maxsize {
          var j :| 0 <= j < |fp| && fp[j].trackedTotal > maxsize;
          assert t[j - 1].trackedTotal > maxsize;
          var i :| FirstLargest(t, i, maxsize) && LargestFrom(t, tmax, maxsize) == Some(t[i].timestamp);
          FirstLargestShift(fp, i, maxsize, maxsize);
          assert fp[i + 1] == t[i];
        } else {
          assert forall j :: 0 <= j < |t| ==> t[j] == fp[j + 1];
        }
      }
    }
  }

  /** The corrected choice: none when no snapshot tracked anything, otherwise
      the first snapshot with the largest total. */
  lemma LargestSnapshotIsMax(fp: seq<Snapshot>)
    ensures LargestSnapshot(fp).None? <==> forall j :: 0 <= j < |fp| ==> fp[j].trackedTotal <= 0
    ensures LargestSnapshot(fp).Some? ==>
      exists i :: FirstLargest(fp, i, 0) && LargestSnapshot(fp) == Some(fp[i].timestamp)
  {
    LargestFromIsMax(fp, None, 0);
  }

  /** Two snapshots, the first larger: as written the later, smaller one is
      chosen; the corrected loop chooses the first. */
  lemma TMaxPicksSmaller()
    ensures TMaxAsWritten([Snapshot(1, 100), Snapshot(2, 50)], None, 0) == Some(2)
    ensures LargestSnapshot([Snapshot(1, 100), Snapshot(2, 50)]) == Some(1)
  {
    var fp := [Snapshot(1, 100), Snapshot(2, 50)];
    assert fp[1..] == [Snapshot(2, 50)];
    assert fp[1..][1..] == [];
  }

  // ---------------------------------------------------------------------
  // Records

  /** A tracked object prepared for sorting under the name it is indexed by. */
  function RecordOf(key: string, o: ObjectStat, tmax: Option<int>): Record
  {
    Record(key, SizeAtOpt(o.footprint, tmax), o.birth, o.death, o.cls, o.repr, MaxSize(o.footprint))
  }

  function RecordsOf(key: string, objs: seq<ObjectStat>, tmax: Option<int>): seq<Record>
  {
    seq(|objs|, i requires 0 <= i < |objs| => RecordOf(key, objs[i], tmax))
  }

  /** The records of the listed names, in the order of the names. */
  function RecordsFor(index: map<string, seq<ObjectStat>>, keys: seq<string>, tmax: Option<int>): seq<Record>
    requires forall k :: k in keys ==> k in index
  {
    if keys == [] then []
    else RecordsFor(index, keys[..|keys| - 1], tmax) + RecordsOf(keys[|keys| - 1], index[keys[|keys| - 1]], tmax)
  }

  /** The records _init_sort builds from the tracked index. */
  function InitRecords(index: map<string, seq<ObjectStat>>, tmax: Option<int>): seq<Record>
  {
    RecordsFor(index, SortedKeys(index), tmax)
  }

  /** Every tracked object of every listed name has its record, and every
      record comes from a tracked object of a listed name. */
  lemma {:induction false} RecordsForComplete(index: map<string, seq<ObjectStat>>, keys: seq<string>, tmax: Option<int>)
    requires forall k :: k in keys ==> k in index
    ensures forall k, i | k in keys && 0 <= i < |index[k]| :: RecordOf(k, index[k][i], tmax) in RecordsFor(index, keys, tmax)
    ensures forall r | r in RecordsFor(index, keys, tmax) ::
      r.classname in keys && exists i :: 0 <= i < |index[r.classname]| && r == RecordOf(r.classname, index[r.classname][i], tmax)
  {
    if keys != [] {
      var init := keys[..|keys| - 1];
      var last := keys[|keys| - 1];
      RecordsForComplete(index, init, tmax);
      var front := RecordsFor(index, init, tmax);
      var tail := RecordsOf(last, index[last], tmax);
      assert RecordsFor(index, keys, tmax) == front + tail;
      forall k, i | k in keys && 0 <= i < |index[k]|
        ensures RecordOf(k, index[k][i], tmax) in front + tail
      {
        if k == last { assert tail[i] == RecordOf(k, index[k][i], tmax); }
        else {
          var n :| 0 <= n < |keys| && keys[n] == k;
          assert init[n] == k;
        }
      }
      forall r | r in front + tail
        ensures r.classname in keys
        ensures exists i :: 0 <= i < |index[r.classname]| && r == RecordOf(r.classname, index[r.classname][i], tmax)
      {
        if r in tail {
          var i :| 0 <= i < |tail| && tail[i] == r;
        } else {
          assert r in front;
          var n :| 0 <= n < |init| && init[n] == r.classname;
          assert keys[n] == r.classname;
        }
      }
    }
  }

  /** Each record reports the largest size of its object and its size at the
      chosen snapshot, and nothing else is recorded. */
  lemma InitRecordsComplete(index: map<string, seq<ObjectStat>>, tmax: Option<int>)
    ensures forall k, i | k in index && 0 <= i < |index[k]| :: RecordOf(k, index[k][i], tmax) in InitRecords(index, tmax)
    ensures forall r | r in InitRecords(index, tmax) ::
      r.classname in index && exists i :: 0 <= i < |index[r.classname]| && r == RecordOf(r.classname, index[r.classname][i], tmax)
  {
    RecordsForComplete(index, SortedKeys(index), tmax);
  }

  /** A record's size bounds every sample of its object and tsize is 0 when
      no snapshot is chosen. */
  lemma RecordSizes(key: string, o: ObjectStat, tmax: Option<int>)
    ensures forall i :: 0 <= i < |o.footprint| ==> o.footprint[i].size <= RecordOf(key, o, tmax).size
    ensures tmax.None? ==> RecordOf(key, o, tmax).tsize == 0
  {
  }

  // ---------------------------------------------------------------------
  // The statistics object

  class Stats {
    var trackedIndex: map<string, seq<ObjectStat>>
    var footprint: seq<Snapshot>
    var sorted: seq<Record>

    constructor(trackedIndex: map<string, seq<ObjectStat>>, footprint: seq<Snapshot>)
      ensures this.trackedIndex == trackedIndex && this.footprint == footprint
      ensures sorted == []
    {
      this.trackedIndex := trackedIndex;
      this.footprint := footprint;
      sorted := [];
    }

    /** The records a sort starts from: the current ones, or the freshly
        built ones when there are none yet. */
    function Base(): seq<Record>
      reads this
    {
      if sorted == [] then InitRecords(trackedIndex, TMaxAsWritten(footprint, None, 0)) else sorted
    }

    /** _init_sort: with no records yet, choose a snapshot (as written, the
        last one that tracked anything) and build one record per tracked
        object. */
    method InitSort()
      modifies this
      ensures trackedIndex == old(trackedIndex) && footprint == old(footprint)
      ensures sorted == old(Base())
    {
      if sorted == [] {
        var fp := footprint;
        var index := trackedIndex;
        var tmax: Option<int> := None;
        var maxsize := 0;
        var i := 0;
        while i < |fp|
          invariant 0 <= i <= |fp|
          invariant TMaxAsWritten(fp[i..], tmax, maxsize) == TMaxAsWritten(fp, None, 0)
        {
          assert fp[i..][0] == fp[i] && fp[i..][1..] == fp[i + 1..];
          if fp[i].trackedTotal > maxsize {
            tmax := Some(fp[i].timestamp);
          }
          i := i + 1;
        }
        var keys := SortedKeys(index);
        var records: seq<Record> := [];
        var k := 0;
        while k < |keys|
          invariant 0 <= k <= |keys|
          invariant records == RecordsFor(index, keys[..k], tmax)
        {
          assert keys[..k + 1][..k] == keys[..k];
          records := records + RecordsOf(keys[k], index[keys[k]], tmax);
          k := k + 1;
        }
        assert keys[..k] == keys;
        sorted := records;
      }
    }

    /** sort_stats: reject unknown criteria with ValueError, otherwise sort
        the records by the criteria (all of them when none is given). */
    method SortStats(args: seq<string>) returns (r: Result<(), HeapError>)
      modifies this
      ensures trackedIndex == old(trackedIndex) && footprint == old(footprint)
      ensures r.Ok? <==> AllValid(args)
      ensures r.Err? ==> r.error == ValueError && sorted == old(sorted)
      ensures r.Ok? ==> sorted == SortBy(old(Base()), ParseCriteria(args).value)
    {
      var crit := ParseCriteria(args);
      if crit.Err? {
        return Err(ValueError);
      }
      if sorted == [] {
        InitSort();
      }
      sorted := SortBy(sorted, crit.value);
      r := Ok(());
    }

    /** reverse_order: the records in the opposite order. */
    method ReverseOrder()
      modifies this
      ensures trackedIndex == old(trackedIndex) && footprint == old(footprint)
      ensures sorted == Reverse(old(Base()))
    {
      if sorted == [] {
        InitSort();
      }
      sorted := Reverse(sorted);
    }
  }

  /** After sort_stats the records are those of the base list, ordered by the
      criteria. */
  lemma SortStatsOrders(base: seq<Record>, args: seq<string>)
    requires AllValid(args)
    ensures Sorted(SortBy(base, ParseCriteria(args).value), ParseCriteria(args).value)
    ensures multiset(SortBy(base, ParseCriteria(args).value)) == multiset(base)
  {
    SortBySorted(base, ParseCriteria(args).value);
  }
}
