/** The pure record shaping of src/main.rs that sets up the preconditions of
    `id3`: splitting a comma-separated token into attributes and outcome,
    collecting the variant and outcome universes, and separating the
    training rows from the held-out test rows. */
module Loader {
  import opened Wrappers
  import opened Dataset

  /** `str::split(sep)`: the maximal runs between separators, at least one
      (possibly empty) field. */
  function Split(s: string, sep: char): (fields: seq<string>)
    ensures |fields| >= 1
    ensures forall i :: 0 <= i < |fields| ==> sep !in fields[i]
    ensures Join(fields, sep) == s
  {
    if s == [] then [[]]
    else
      var rest := Split(s[1..], sep);
      if s[0] == sep then
        assert [sep] + s[1..] == s;
        [[]] + rest
      else
        JoinPrepend(s[0], rest, sep);
        assert [s[0]] + s[1..] == s;
        [[s[0]] + rest[0]] + rest[1..]
  }

  /** The fields put back together with `sep` between neighbours. */
  function Join(fields: seq<string>, sep: char): string
    requires |fields| >= 1
  {
    if |fields| == 1 then fields[0] else fields[0] + [sep] + Join(fields[1..], sep)
  }

  lemma JoinPrepend(c: char, fields: seq<string>, sep: char)
    requires |fields| >= 1
    ensures Join([[c] + fields[0]] + fields[1..], sep) == [c] + Join(fields, sep)
  {
    var g := [[c] + fields[0]] + fields[1..];
    assert g[1..] == fields[1..];
  }

  /** Splitting inverts joining fields that hold no separator. */
  lemma {:induction false} SplitJoin(fields: seq<string>, sep: char)
    requires |fields| >= 1
    requires forall i :: 0 <= i < |fields| ==> sep !in fields[i]
    ensures Split(Join(fields, sep), sep) == fields
  {
    if |fields| == 1 {
      SplitPrefix(fields[0], [], sep);
      assert fields[0] + [] == fields[0];
    } else {
      SplitJoin(fields[1..], sep);
      assert fields == [fields[0]] + fields[1..];
      SplitJoinCons(fields[0], fields[1..], sep);
    }
  }

  /** One more separator-free field in front of fields that split back. */
  lemma SplitJoinCons(head: string, rest: seq<string>, sep: char)
    requires |rest| >= 1 && sep !in head
    requires Split(Join(rest, sep), sep) == rest
    ensures Split(Join([head] + rest, sep), sep) == [head] + rest
  {
    var tail := Join(rest, sep);
    assert ([head] + rest)[1..] == rest;
    assert Join([head] + rest, sep) == head + ([sep] + tail);
    SplitSeparator(tail, sep);
    SplitPrefix(head, [sep] + tail, sep);
    assert head + [] == head;
  }

  lemma SplitSeparator(t: string, sep: char)
    ensures Split([sep] + t, sep) == [[]] + Split(t, sep)
  {
    assert ([sep] + t)[1..] == t;
  }

  /** A string without the separator is a single field. */
  lemma SplitWhole(s: string, sep: char)
    ensures sep !in s ==> Split(s, sep) == [s]
  {
    if sep !in s {
      SplitJoin([s], sep);
    }
  }

  lemma SplitCons(c: char, t: string, sep: char)
    requires c != sep
    ensures Split([c] + t, sep) == [[c] + Split(t, sep)[0]] + Split(t, sep)[1..]
  {
    assert ([c] + t)[1..] == t;
  }

  /** A separator-free prefix joins the first field of what follows. */
  lemma {:induction false} SplitPrefix(w: string, t: string, sep: char)
    requires sep !in w
    ensures Split(w + t, sep) == [w + Split(t, sep)[0]] + Split(t, sep)[1..]
  {
    var f := Split(t, sep);
    if w == [] {
      assert w + t == t;
      assert w + f[0] == f[0];
      assert f == [f[0]] + f[1..];
    } else {
      SplitPrefix(w[1..], t, sep);
      assert w + t == [w[0]] + (w[1..] + t);
      assert w + f[0] == [w[0]] + (w[1..] + f[0]);
      SplitPrefixStep(w[0], w[1..], t, sep);
    }
  }

  lemma SplitPrefixStep(c: char, w: string, t: string, sep: char)
    requires c != sep
    requires Split(w + t, sep) == [w + Split(t, sep)[0]] + Split(t, sep)[1..]
    ensures Split([c] + (w + t), sep) == [[c] + (w + Split(t, sep)[0])] + Split(t, sep)[1..]
  {
    var g := Split(w + t, sep);
    var f := Split(t, sep);
    assert g[0] == w + f[0] && g[1..] == f[1..];
    SplitCons(c, w + t, sep);
  }

  /** One data token as a record (src/main.rs:103-114): split at commas; with
      `first` the outcome is field 0 and the attributes the fields after it,
      otherwise the outcome is the last field and the attributes the fields
      before it. Either way joining the fields back gives the token. */
  function ParseRow(token: string, first: bool): (r: Record)
    ensures |r.attrs| == |Split(token, ',')| - 1
    ensures ',' !in r.outcome && forall i :: 0 <= i < |r.attrs| ==> ',' !in r.attrs[i]
    ensures first ==> Join([r.outcome] + r.attrs, ',') == token
    ensures !first ==> Join(r.attrs + [r.outcome], ',') == token
    ensures ',' !in token ==> r == Record([], token)
  {
    var fields := Split(token, ',');
    SplitWhole(token, ',');
    if first then
      assert [fields[0]] + fields[1..] == fields;
      Record(fields[1..], fields[0])
    else
      var n := |fields| - 1;
      assert fields[..n] + [fields[n]] == fields;
      Record(fields[..n], fields[n])
  }

  /** Parsing inverts writing a record out in either column convention, as
      long as no field holds a comma. */
  lemma ParseRowRoundTrip(rec: Record)
    requires ',' !in rec.outcome && forall i :: 0 <= i < |rec.attrs| ==> ',' !in rec.attrs[i]
    ensures ParseRow(Join([rec.outcome] + rec.attrs, ','), true) == rec
    ensures ParseRow(Join(rec.attrs + [rec.outcome], ','), false) == rec
  {
    SplitJoin([rec.outcome] + rec.attrs, ',');
    SplitJoin(rec.attrs + [rec.outcome], ',');
    assert ([rec.outcome] + rec.attrs)[1..] == rec.attrs;
    assert (rec.attrs + [rec.outcome])[..|rec.attrs|] == rec.attrs;
  }

  /** The per-position variant universe and the outcome universe, each hash
      set modelled as a duplicate-free sequence in insertion order. */
  datatype Universe = Universe(variants: seq<seq<string>>, outcomes: seq<string>)

  /** Why collecting the universes aborts: there is no record (the `expect`
      at src/main.rs:137), or a record is wider than the first (the index at
      src/main.rs:141). */
  datatype LoadError = EmptyDataset | RowTooWide(row: nat)

  /** `HashSet::insert`. */
  function Insert(xs: seq<string>, v: string): (ys: seq<string>)
    requires NoDup(xs)
    ensures NoDup(ys)
    ensures forall x :: x in ys <==> x in xs || x == v
  {
    if v in xs then xs else xs + [v]
  }

  /** Some record among the first `n` has value `v` at position `i`. */
  ghost predicate Seen(data: seq<Record>, n: nat, i: nat, v: string)
    requires n <= |data|
  {
    exists k :: 0 <= k < n && i < |data[k].attrs| && data[k].attrs[i] == v
  }

  /** `u` holds exactly the values and labels that occur in `data`, without
      repeats, with one variant set per attribute position of the first
      record. */
  ghost predicate Describes(data: seq<Record>, u: Universe) {
    && |data| > 0
    && |u.variants| == |data[0].attrs|
    && (forall k :: 0 <= k < |data| ==> |data[k].attrs| <= |u.variants|)
    && (forall i :: 0 <= i < |u.variants| ==> NoDup(u.variants[i]))
    && (forall i: nat, v :: i < |u.variants| ==> (v in u.variants[i] <==> Seen(data, |data|, i, v)))
    && NoDup(u.outcomes)
    && (forall o :: o in u.outcomes <==> o in OutcomeSet(data))
  }

  /** The loop of src/main.rs:137-144: one variant set per position of the
      first record, filled from every record, and the set of all labels. */
  method CollectUniverses(data: seq<Record>) returns (r: Result<Universe, LoadError>)
    ensures r == Err(EmptyDataset) <==> data == []
    ensures r.Ok? <==> data != [] && forall k :: 0 <= k < |data| ==> |data[k].attrs| <= |data[0].attrs|
    ensures r.Err? && r.error.RowTooWide? ==>
              r.error.row < |data| && |data[r.error.row].attrs| > |data[0].attrs| &&
              forall k :: 0 <= k < r.error.row ==> |data[k].attrs| <= |data[0].attrs|
    ensures r.Ok? ==> Describes(data, r.value)
  {
    if |data| == 0 {
      return Err(EmptyDataset);
    }
    var w := |data[0].attrs|;
    var variants: seq<seq<string>> := seq(w, _ => []);
    var outcomes: seq<string> := [];
    var j := 0;
    while j < |data|
      invariant 0 <= j <= |data|
      invariant |variants| == w
      invariant forall k :: 0 <= k < j ==> |data[k].attrs| <= w
      invariant forall i :: 0 <= i < w ==> NoDup(variants[i])
      invariant forall i: nat, v :: i < w ==> (v in variants[i] <==> Seen(data, j, i, v))
      invariant NoDup(outcomes)
      invariant forall o :: o in outcomes <==> o in OutcomeSet(data[..j])
    {
      var rec := data[j];
      if |rec.attrs| > w {
        return Err(RowTooWide(j));
      }
      var p := 0;
      while p < |rec.attrs|
        invariant 0 <= p <= |rec.attrs|
        invariant |variants| == w
        invariant forall i :: 0 <= i < w ==> NoDup(variants[i])
        invariant forall i: nat, v :: i < w ==>
                    (v in variants[i] <==> Seen(data, j, i, v) || (i < p && rec.attrs[i] == v))
      {
        variants := variants[p := Insert(variants[p], rec.attrs[p])];
        p := p + 1;
      }
      outcomes := Insert(outcomes, rec.outcome);
      SeenStep(data, j);
      j := j + 1;
    }
    assert data[..j] == data;
    return Ok(Universe(variants, outcomes));
  }

  lemma SeenStep(data: seq<Record>, j: nat)
    requires j < |data|
    ensures forall i: nat, v :: Seen(data, j + 1, i, v) <==>
              Seen(data, j, i, v) || (i < |data[j].attrs| && data[j].attrs[i] == v)
    ensures OutcomeSet(data[..j + 1]) == OutcomeSet(data[..j]) + {data[j].outcome}
  {
    forall i: nat, v | Seen(data, j + 1, i, v)
      ensures Seen(data, j, i, v) || (i < |data[j].attrs| && data[j].attrs[i] == v)
    {
      var k :| 0 <= k < j + 1 && i < |data[k].attrs| && data[k].attrs[i] == v;
      if k < j {
        assert Seen(data, j, i, v);
      }
    }
    forall i: nat | i < |data[j].attrs|
      ensures Seen(data, j + 1, i, data[j].attrs[i])
    {
      assert 0 <= j < j + 1 && i < |data[j].attrs|;
    }
    assert data[..j + 1] == data[..j] + [data[j]];
  }

  /** The universes cover the data: every label is an outcome, and every
      value lies in the variant set of its position, so on rows of the
      first record's width the universe is exactly what `id3` needs. */
  lemma UniverseCoversData(data: seq<Record>, u: Universe)
    requires Describes(data, u)
    ensures OutcomesKnown(data, u.outcomes)
    ensures forall k, i :: 0 <= k < |data| && 0 <= i < |data[k].attrs| ==> data[k].attrs[i] in u.variants[i]
    ensures forall k :: 0 <= k < |data| && |data[k].attrs| == |u.variants| ==> InUniverse(data[k].attrs, u.variants)
  {
    forall r | r in data
      ensures r.outcome in u.outcomes
    {
      assert r.outcome in OutcomeSet(data);
    }
    forall k, i | 0 <= k < |data| && 0 <= i < |data[k].attrs|
      ensures data[k].attrs[i] in u.variants[i]
    {
      assert Seen(data, |data|, i, data[k].attrs[i]);
    }
  }

  /** The training rows, in the order the sampling loop of src/main.rs:118-126
      pushed them; the random draws themselves are the input `picks`. */
  function TrainingData(data: seq<Record>, picks: seq<nat>): (t: seq<Record>)
    requires forall k :: 0 <= k < |picks| ==> picks[k] < |data|
    ensures |t| == |picks|
    ensures forall r :: r in t ==> r in data
  {
    seq(|picks|, k requires 0 <= k < |picks| => data[picks[k]])
  }

  /** The held-out rows of src/main.rs:128-133: the records whose index is not
      among the training indices, in their original order. */
  function TestData(data: seq<Record>, used: set<nat>): (t: seq<Record>)
    ensures forall r :: r in t ==> r in data
    ensures |t| + |Below(used, |data|)| == |data|
  {
    var idx := Unselected(|data|, used);
    UnselectedSize(|data|, used);
    seq(|idx|, k requires 0 <= k < |idx| => data[idx[k]])
  }

  /** Every record whose index was not drawn for training is held out. */
  lemma TestDataKeepsUnpicked(data: seq<Record>, used: set<nat>)
    ensures forall k :: 0 <= k < |data| && k !in used ==> data[k] in TestData(data, used)
  {
    var idx := Unselected(|data|, used);
    var t := TestData(data, used);
    UnselectedIndices(|data|, used);
    forall k | 0 <= k < |data| && k !in used
      ensures data[k] in t
    {
      var p := IndexOf(idx, k);
      assert t[p] == data[k];
    }
  }

  /** The indices of `used` below `n`. */
  function Below(used: set<nat>, n: nat): set<nat> {
    set i | i in used && i < n
  }

  lemma {:induction false} UnselectedSize(n: nat, used: set<nat>)
    ensures |Unselected(n, used)| + |Below(used, n)| == n
  {
    if n > 0 {
      UnselectedSize(n - 1, used);
      BelowStep(used, n - 1);
    } else {
      assert Below(used, n) == {};
    }
  }

  lemma BelowStep(used: set<nat>, n: nat)
    ensures |Below(used, n + 1)| == |Below(used, n)| + (if n in used then 1 else 0)
  {
    if n in used {
      assert Below(used, n + 1) == Below(used, n) + {n};
    } else {
      assert Below(used, n + 1) == Below(used, n);
    }
  }

  /** The indices a sequence holds. */
  function Members(picks: seq<nat>): set<nat> {
    set p | p in picks
  }

  /** The set of a duplicate-free sequence has as many elements as it. */
  lemma {:induction false} DistinctSize(picks: seq<nat>)
    requires NoDup(picks)
    ensures |Members(picks)| == |picks|
  {
    if picks != [] {
      NoDupHead(picks);
      DistinctSize(picks[1..]);
      var rest := Members(picks[1..]);
      assert picks == [picks[0]] + picks[1..];
      assert Members(picks) == {picks[0]} + rest;
      assert picks[0] !in rest;
    } else {
      assert Members(picks) == {};
    }
  }

  /** With distinct training indices, every record lands in exactly one of
      the two sets: training size plus test size is the data size. */
  lemma SplitSizes(data: seq<Record>, picks: seq<nat>)
    requires NoDup(picks)
    requires forall k :: 0 <= k < |picks| ==> picks[k] < |data|
    ensures |TrainingData(data, picks)| + |TestData(data, Members(picks))| == |data|
  {
    var used := Members(picks);
    DistinctSize(picks);
    assert Below(used, |data|) == used;
  }
}
