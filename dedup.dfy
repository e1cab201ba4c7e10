/** The deduplicating merge of resolved locations by case-insensitive name. */
module Dedup {
  import opened Wrappers
  import opened Types
  import Text

  /** The name a location is matched on: `name.toLowerCase()`. */
  function Key(l: Location): string {
    Text.FoldCase(l.name)
  }

  /** The upgrade test as written: incoming `high` over anything else, or `medium` over `low`;
      that is exactly a strictly higher rank. */
  predicate Upgrades(incoming: Confidence, existing: Confidence)
    ensures Upgrades(incoming, existing) <==> incoming.Rank() > existing.Rank()
  {
    (incoming == High && existing != High) || (incoming == Medium && existing == Low)
  }

  /** One merge step: an existing entry absorbs a later one with the same name. */
  function Absorb(e: Location, x: Location): (r: Location)
    ensures r.name == e.name && r.description == e.description
    ensures r.rawMentions == e.rawMentions + x.rawMentions
    ensures r.confidence.Rank() >= e.confidence.Rank() && r.confidence.Rank() >= x.confidence.Rank()
    ensures r.confidence == e.confidence || r.confidence == x.confidence
    ensures x.confidence.Rank() > e.confidence.Rank() ==>
              r.confidence == x.confidence && r.latitude == x.latitude && r.longitude == x.longitude && r.sources == x.sources
    ensures x.confidence.Rank() <= e.confidence.Rank() ==>
              r.confidence == e.confidence && r.latitude == e.latitude && r.longitude == e.longitude && r.sources == e.sources
  {
    var e' := e.(rawMentions := e.rawMentions + x.rawMentions);
    if Upgrades(x.confidence, e'.confidence) then
      e'.(confidence := x.confidence, latitude := x.latitude, longitude := x.longitude, sources := x.sources)
    else e'
  }

  /** The inputs with key `k`, in input order. */
  function Group(s: seq<Location>, k: string): (g: seq<Location>)
    ensures |g| <= |s|
    ensures forall i :: 0 <= i < |g| ==> Key(g[i]) == k
    ensures g == [] <==> forall i :: 0 <= i < |s| ==> Key(s[i]) != k
  {
    if s == [] then []
    else
      var g := Group(s[..|s| - 1], k);
      if Key(s[|s| - 1]) == k then g + [s[|s| - 1]] else g
  }

  /** The distinct keys, each at the place where it first occurs. */
  function FirstSeenKeys(s: seq<Location>): (ks: seq<string>)
    ensures |ks| <= |s|
  {
    if s == [] then []
    else
      var ks := FirstSeenKeys(s[..|s| - 1]);
      var k := Key(s[|s| - 1]);
      if k in ks then ks else ks + [k]
  }

  /** The keys are the folded names that occur, each listed once: every key has a nonempty group
      and every input's folded name is a key. */
  predicate KeysOf(s: seq<Location>, ks: seq<string>) {
    && (forall a, b :: 0 <= a < b < |ks| ==> ks[a] != ks[b])
    && (forall a :: 0 <= a < |ks| ==> Group(s, ks[a]) != [])
    && (forall i :: 0 <= i < |s| ==> Key(s[i]) in ks)
  }

  /** The first-seen keys are exactly the folded names of the input, without repeats. */
  lemma {:induction false} FirstSeenKeysAreKeys(s: seq<Location>)
    ensures KeysOf(s, FirstSeenKeys(s))
  {
    if s != [] {
      var t, x := s[..|s| - 1], s[|s| - 1];
      assert s == t + [x];
      FirstSeenKeysAreKeys(t);
      FirstSeenKeysStep(t, x);
    }
  }

  lemma FirstSeenKeysStep(t: seq<Location>, x: Location)
    requires KeysOf(t, FirstSeenKeys(t))
    ensures KeysOf(t + [x], FirstSeenKeys(t + [x]))
  {
    FirstSeenKeysSnoc(t, x);
    KeysOfStep(t, x, FirstSeenKeys(t), FirstSeenKeys(t + [x]));
  }

  /** Appending a location keeps the keys, adding its folded name when it is new. */
  lemma KeysOfStep(t: seq<Location>, x: Location, kt: seq<string>, ks: seq<string>)
    requires KeysOf(t, kt)
    requires ks == if Key(x) in kt then kt else kt + [Key(x)]
    ensures KeysOf(t + [x], ks)
  {
    KeysGroupedStep(t, x, kt, ks);
    KeysCoverStep(t, x, kt, ks);
    KeysDistinctStep(kt, Key(x), ks);
  }

  lemma KeysGroupedStep(t: seq<Location>, x: Location, kt: seq<string>, ks: seq<string>)
    requires forall a :: 0 <= a < |kt| ==> Group(t, kt[a]) != []
    requires ks == if Key(x) in kt then kt else kt + [Key(x)]
    ensures forall a :: 0 <= a < |ks| ==> Group(t + [x], ks[a]) != []
  {
    forall a | 0 <= a < |ks|
      ensures Group(t + [x], ks[a]) != []
    {
      GroupSnoc(t, x, ks[a]);
      if a < |kt| {
        assert ks[a] == kt[a];
      }
    }
  }

  lemma KeysCoverStep(t: seq<Location>, x: Location, kt: seq<string>, ks: seq<string>)
    requires forall i :: 0 <= i < |t| ==> Key(t[i]) in kt
    requires ks == if Key(x) in kt then kt else kt + [Key(x)]
    ensures forall i :: 0 <= i < |t + [x]| ==> Key((t + [x])[i]) in ks
  {
    var s := t + [x];
    forall i | 0 <= i < |s|
      ensures Key(s[i]) in ks
    {
      if i < |t| {
        assert s[i] == t[i];
      }
    }
  }

  lemma KeysDistinctStep(kt: seq<string>, k: string, ks: seq<string>)
    requires forall a, b :: 0 <= a < b < |kt| ==> kt[a] != kt[b]
    requires ks == if k in kt then kt else kt + [k]
    ensures forall a, b :: 0 <= a < b < |ks| ==> ks[a] != ks[b]
  {
    if k !in kt {
      forall a, b | 0 <= a < b < |ks|
        ensures ks[a] != ks[b]
      {
        assert ks[a] == kt[a];
        if b == |kt| {
          assert ks[b] == k;
        } else {
          assert ks[b] == kt[b];
        }
      }
    }
  }

  /** The mention lists of a group, concatenated in order. */
  function Mentions(g: seq<Location>): (r: seq<string>)
    ensures (forall i :: 0 <= i < |g| ==> |g[i].rawMentions| == 1) ==> |r| == |g|
  {
    if g == [] then [] else Mentions(g[..|g| - 1]) + g[|g| - 1].rawMentions
  }

  /** The member of a nonempty group with the highest confidence, the first one on a tie. */
  function BestIndex(g: seq<Location>): (i: nat)
    requires g != []
    ensures i < |g|
    ensures forall j :: 0 <= j < |g| ==> g[j].confidence.Rank() <= g[i].confidence.Rank()
    ensures forall j :: 0 <= j < i ==> g[j].confidence.Rank() < g[i].confidence.Rank()
  {
    if |g| == 1 then 0
    else
      var b := BestIndex(g[..|g| - 1]);
      if Upgrades(g[|g| - 1].confidence, g[b].confidence) then |g| - 1 else b
  }

  /** The entry a group collapses into: name and description of its first member, the mentions
      of all members, and the point, confidence and sources of its best member. */
  function MergeGroup(g: seq<Location>): (r: Location)
    requires g != []
    ensures r.name == g[0].name && r.description == g[0].description
    ensures r.rawMentions == Mentions(g)
    ensures forall j :: 0 <= j < |g| ==> g[j].confidence.Rank() <= r.confidence.Rank()
    ensures exists i :: 0 <= i < |g| && BestAt(g, i)
                     && r.confidence == g[i].confidence && r.latitude == g[i].latitude
                     && r.longitude == g[i].longitude && r.sources == g[i].sources
  {
    var b := g[BestIndex(g)];
    assert BestAt(g, BestIndex(g));
    Location(g[0].name, g[0].description, b.latitude, b.longitude, b.confidence, b.sources, Mentions(g))
  }

  /** `g[i]` is the first member of `g` with the highest confidence in `g`. */
  predicate BestAt(g: seq<Location>, i: int) {
    0 <= i < |g|
    && (forall j :: 0 <= j < |g| ==> g[j].confidence.Rank() <= g[i].confidence.Rank())
    && (forall j :: 0 <= j < i ==> g[j].confidence.Rank() < g[i].confidence.Rank())
  }

  /** What the merge produces: one entry per distinct folded name, in first-seen order. */
  function Deduplicated(s: seq<Location>): (r: seq<Location>)
    ensures |r| == |FirstSeenKeys(s)|
  {
    var ks := FirstSeenKeys(s);
    FirstSeenKeysAreKeys(s);
    seq(|ks|, a requires 0 <= a < |ks| => MergeGroup(Group(s, ks[a])))
  }

  /** The merge output is one entry per distinct folded name of the input, in first-seen order
      of the names, and never longer than the input. */
  lemma DedupKeys(s: seq<Location>)
    ensures |Deduplicated(s)| == |FirstSeenKeys(s)| <= |s|
    ensures forall a :: 0 <= a < |Deduplicated(s)| ==> Key(Deduplicated(s)[a]) == FirstSeenKeys(s)[a]
    ensures forall a, b :: 0 <= a < b < |Deduplicated(s)| ==> Key(Deduplicated(s)[a]) != Key(Deduplicated(s)[b])
    ensures forall i :: 0 <= i < |s| ==> Key(s[i]) in FirstSeenKeys(s)
  {
    FirstSeenKeysAreKeys(s);
    var ks := FirstSeenKeys(s);
    forall a | 0 <= a < |ks|
      ensures Key(Deduplicated(s)[a]) == ks[a]
    {
      var g := Group(s, ks[a]);
      assert Deduplicated(s)[a] == MergeGroup(g);
      assert Key(g[0]) == ks[a];
    }
  }

  /** Growing the input by one location grows each group by that location or not at all. */
  lemma GroupSnoc(s: seq<Location>, x: Location, k: string)
    ensures Group(s + [x], k) == if Key(x) == k then Group(s, k) + [x] else Group(s, k)
  {
    assert (s + [x])[..|s|] == s;
  }

  lemma FirstSeenKeysSnoc(s: seq<Location>, x: Location)
    ensures FirstSeenKeys(s + [x]) == if Key(x) in FirstSeenKeys(s) then FirstSeenKeys(s) else FirstSeenKeys(s) + [Key(x)]
  {
    assert (s + [x])[..|s|] == s;
  }

  lemma MentionsSnoc(g: seq<Location>, x: Location)
    ensures Mentions(g + [x]) == Mentions(g) + x.rawMentions
  {
    assert (g + [x])[..|g|] == g;
  }

  /** A group of one collapses into its member. */
  lemma MergeSingleton(x: Location)
    ensures MergeGroup([x]) == x
  {
    assert [x][..0] == [];
    assert Mentions([x]) == x.rawMentions;
  }

  /** Collapsing a group grown by one is absorbing that one into the collapsed group. */
  lemma MergeSnoc(g: seq<Location>, x: Location)
    requires g != []
    ensures MergeGroup(g + [x]) == Absorb(MergeGroup(g), x)
  {
    var g' := g + [x];
    assert g'[..|g|] == g;
    assert Mentions(g') == Mentions(g) + x.rawMentions;
    var b := BestIndex(g);
    assert BestIndex(g') == if Upgrades(x.confidence, g[b].confidence) then |g| else b;
  }

  /** Entry `a` after appending a location whose name has not been seen. */
  lemma DedupStepNewAt(s: seq<Location>, x: Location, a: nat)
    requires Key(x) !in FirstSeenKeys(s)
    requires a <= |FirstSeenKeys(s)|
    ensures FirstSeenKeys(s + [x]) == FirstSeenKeys(s) + [Key(x)]
    ensures Deduplicated(s + [x])[a] == if a < |FirstSeenKeys(s)| then Deduplicated(s)[a] else x
  {
    FirstSeenKeysAreKeys(s);
    FirstSeenKeysSnoc(s, x);
    var ks := FirstSeenKeys(s);
    var k := (ks + [Key(x)])[a];
    GroupSnoc(s, x, k);
    assert Deduplicated(s + [x])[a] == MergeGroup(Group(s + [x], k));
    if a < |ks| {
      assert Deduplicated(s)[a] == MergeGroup(Group(s, k));
    } else {
      assert Group(s + [x], k) == [x];
      MergeSingleton(x);
    }
  }

  /** A location whose name has not been seen is appended. */
  lemma DedupStepNew(s: seq<Location>, x: Location)
    requires Key(x) !in FirstSeenKeys(s)
    ensures Deduplicated(s + [x]) == Deduplicated(s) + [x]
  {
    var r, d := Deduplicated(s + [x]), Deduplicated(s) + [x];
    FirstSeenKeysSnoc(s, x);
    assert |r| == |d|;
    forall a | 0 <= a < |r|
      ensures r[a] == d[a]
    {
      DedupStepNewAt(s, x, a);
    }
    assert r == d;
  }

  /** The `j`-th entry absorbs a location whose name is the `j`-th key. */
  lemma AbsorbedEntry(s: seq<Location>, x: Location, j: nat)
    requires j < |FirstSeenKeys(s)| && FirstSeenKeys(s)[j] == Key(x)
    ensures FirstSeenKeys(s + [x]) == FirstSeenKeys(s)
    ensures Deduplicated(s + [x])[j] == Absorb(Deduplicated(s)[j], x)
  {
    FirstSeenKeysAreKeys(s);
    FirstSeenKeysSnoc(s, x);
    var k := Key(x);
    GroupSnoc(s, x, k);
    assert Deduplicated(s + [x])[j] == MergeGroup(Group(s, k) + [x]);
    MergeSnoc(Group(s, k), x);
  }

  /** The other entries are untouched by a location whose name is the `j`-th key. */
  lemma UntouchedEntry(s: seq<Location>, x: Location, j: nat, a: nat)
    requires j < |FirstSeenKeys(s)| && FirstSeenKeys(s)[j] == Key(x)
    requires a < |FirstSeenKeys(s)| && a != j
    ensures FirstSeenKeys(s + [x]) == FirstSeenKeys(s)
    ensures Deduplicated(s + [x])[a] == Deduplicated(s)[a]
  {
    FirstSeenKeysAreKeys(s);
    FirstSeenKeysSnoc(s, x);
    var k := FirstSeenKeys(s)[a];
    GroupSnoc(s, x, k);
  }

  /** A location whose name is already the `j`-th key is absorbed into the `j`-th entry. */
  lemma DedupStepExisting(s: seq<Location>, x: Location, j: nat)
    requires j < |FirstSeenKeys(s)| && FirstSeenKeys(s)[j] == Key(x)
    ensures Deduplicated(s + [x]) == Deduplicated(s)[j := Absorb(Deduplicated(s)[j], x)]
  {
    var r, d := Deduplicated(s + [x]), Deduplicated(s)[j := Absorb(Deduplicated(s)[j], x)];
    FirstSeenKeysSnoc(s, x);
    assert |r| == |d|;
    forall a | 0 <= a < |r|
      ensures r[a] == d[a]
    {
      if a == j {
        AbsorbedEntry(s, x, j);
      } else {
        UntouchedEntry(s, x, j, a);
      }
    }
    assert r == d;
  }

  /** Where key `k` first occurs in `s`, or `|s|` when it does not. */
  function FirstPos(s: seq<Location>, k: string): (p: nat)
    ensures p <= |s|
  {
    if s == [] then 0 else if Key(s[0]) == k then 0 else 1 + FirstPos(s[1..], k)
  }

  /** The head of a group is the first input with that key: the entry a merge starts from. */
  lemma {:induction false} GroupHeadIsFirst(s: seq<Location>, k: string)
    requires Group(s, k) != []
    ensures FirstPos(s, k) < |s| && Group(s, k)[0] == s[FirstPos(s, k)]
  {
    var t, x := s[..|s| - 1], s[|s| - 1];
    assert s == t + [x];
    FirstPosSnoc(t, x, k);
    if Group(t, k) != [] {
      GroupHeadIsFirst(t, k);
    } else {
      FirstPosIsFirst(t, k);
    }
  }

  /** `FirstPos` is the least position with key `k`. */
  lemma {:induction false} FirstPosIsFirst(s: seq<Location>, k: string)
    ensures FirstPos(s, k) < |s| ==> Key(s[FirstPos(s, k)]) == k
    ensures forall i :: 0 <= i < FirstPos(s, k) ==> Key(s[i]) != k
  {
    if s != [] && Key(s[0]) != k {
      FirstPosIsFirst(s[1..], k);
      forall i | 0 <= i < FirstPos(s, k)
        ensures Key(s[i]) != k
      {
        if i > 0 {
          assert s[i] == s[1..][i - 1];
        }
      }
    }
  }

  /** A first occurrence is not moved by appending. */
  lemma {:induction false} FirstPosSnoc(s: seq<Location>, x: Location, k: string)
    ensures FirstPos(s, k) < |s| ==> FirstPos(s + [x], k) == FirstPos(s, k)
    ensures FirstPos(s, k) == |s| ==> FirstPos(s + [x], k) == if Key(x) == k then |s| else |s| + 1
  {
    if s != [] && Key(s[0]) != k {
      assert (s + [x])[1..] == s[1..] + [x];
      FirstPosSnoc(s[1..], x, k);
    }
  }

  /** A key that has been seen has a first occurrence. */
  lemma SeenKeyOccurs(s: seq<Location>, k: string)
    requires k in FirstSeenKeys(s)
    ensures FirstPos(s, k) < |s|
  {
    FirstSeenKeysAreKeys(s);
    assert Group(s, k) != [];
    var i :| 0 <= i < |s| && Key(s[i]) == k;
    FirstPosIsFirst(s, k);
    assert !(i < FirstPos(s, k));
  }

  /** Each of `ks` occurs in `s`, and they are listed in the order they first occur. */
  predicate InFirstSeenOrder(s: seq<Location>, ks: seq<string>) {
    && (forall a :: 0 <= a < |ks| ==> FirstPos(s, ks[a]) < |s|)
    && (forall a, b :: 0 <= a < b < |ks| ==> FirstPos(s, ks[a]) < FirstPos(s, ks[b]))
  }

  /** Appending keeps every first occurrence of a key already seen. */
  lemma FirstPosKept(t: seq<Location>, x: Location, kt: seq<string>)
    requires forall a :: 0 <= a < |kt| ==> FirstPos(t, kt[a]) < |t|
    ensures forall a :: 0 <= a < |kt| ==> FirstPos(t + [x], kt[a]) == FirstPos(t, kt[a])
  {
    forall a | 0 <= a < |kt|
      ensures FirstPos(t + [x], kt[a]) == FirstPos(t, kt[a])
    {
      FirstPosSnoc(t, x, kt[a]);
    }
  }

  /** A name not yet seen first occurs where it is appended. */
  lemma FirstPosOfNew(t: seq<Location>, x: Location)
    requires Key(x) !in FirstSeenKeys(t)
    ensures FirstPos(t + [x], Key(x)) == |t|
  {
    UnseenIsAbsent(t, Key(x));
    FirstPosSnoc(t, x, Key(x));
  }

  /** A name that is not a key occurs nowhere. */
  lemma UnseenIsAbsent(t: seq<Location>, k: string)
    requires k !in FirstSeenKeys(t)
    ensures FirstPos(t, k) == |t|
  {
    FirstSeenKeysAreKeys(t);
    FirstPosIsFirst(t, k);
  }

  /** Appending a location keeps the keys in first-seen order. */
  lemma FirstSeenOrderSnoc(t: seq<Location>, x: Location)
    requires InFirstSeenOrder(t, FirstSeenKeys(t))
    ensures InFirstSeenOrder(t + [x], FirstSeenKeys(t + [x]))
  {
    FirstSeenKeysSnoc(t, x);
    var kt := FirstSeenKeys(t);
    FirstPosKept(t, x, kt);
    if Key(x) !in kt {
      FirstPosOfNew(t, x);
      OrderExtended(t + [x], kt, Key(x));
    }
  }

  /** A key whose first occurrence comes after those of all listed keys extends the order. */
  lemma OrderExtended(s: seq<Location>, ks: seq<string>, k: string)
    requires InFirstSeenOrder(s, ks)
    requires FirstPos(s, k) < |s|
    requires forall a :: 0 <= a < |ks| ==> FirstPos(s, ks[a]) < FirstPos(s, k)
    ensures InFirstSeenOrder(s, ks + [k])
  {
    var ks' := ks + [k];
    forall a | 0 <= a < |ks'|
      ensures FirstPos(s, ks'[a]) < |s|
    {
      if a < |ks| {
        assert ks'[a] == ks[a];
      }
    }
    forall a, b | 0 <= a < b < |ks'|
      ensures FirstPos(s, ks'[a]) < FirstPos(s, ks'[b])
    {
      assert ks'[a] == ks[a];
      if b < |ks| {
        assert ks'[b] == ks[b];
      }
    }
  }

  /** The keys, and with them the merged entries, come in the order their names first occur. */
  lemma {:induction false} FirstSeenOrder(s: seq<Location>)
    ensures InFirstSeenOrder(s, FirstSeenKeys(s))
  {
    if s != [] {
      var t, x := s[..|s| - 1], s[|s| - 1];
      assert s == t + [x];
      FirstSeenOrder(t);
      FirstSeenOrderSnoc(t, x);
    }
  }

  /** A name that occurs nowhere in `t` is not among its keys. */
  lemma UnseenKey(t: seq<Location>, x: Location)
    requires forall i :: 0 <= i < |t| ==> Key(t[i]) != Key(x)
    ensures Key(x) !in FirstSeenKeys(t)
  {
    FirstSeenKeysAreKeys(t);
    assert Group(t, Key(x)) == [];
  }

  /** An input whose folded names are already distinct is left as it is. */
  lemma {:induction false} DedupOfDistinct(s: seq<Location>)
    requires forall a, b :: 0 <= a < b < |s| ==> Key(s[a]) != Key(s[b])
    ensures Deduplicated(s) == s
  {
    if s == [] {
      assert Deduplicated(s) == [];
    } else {
      var t, x := s[..|s| - 1], s[|s| - 1];
      assert s == t + [x];
      DedupOfDistinct(t);
      UnseenKey(t, x);
      DedupStepNew(t, x);
    }
  }

  /** Merging a second time changes nothing. */
  lemma DedupIdempotent(s: seq<Location>)
    ensures Deduplicated(Deduplicated(s)) == Deduplicated(s)
  {
    DedupKeys(s);
    DedupOfDistinct(Deduplicated(s));
  }

  /** Every input is represented by an entry with its folded name and at least its confidence,
      with the mentions of every input of that name, in input order. */
  lemma NeverDowngrades(s: seq<Location>, i: nat)
    requires i < |s|
    ensures exists a :: 0 <= a < |Deduplicated(s)| && Key(Deduplicated(s)[a]) == Key(s[i])
    ensures forall a :: 0 <= a < |Deduplicated(s)| && Key(Deduplicated(s)[a]) == Key(s[i]) ==>
              Deduplicated(s)[a].confidence.Rank() >= s[i].confidence.Rank()
              && Deduplicated(s)[a].rawMentions == Mentions(Group(s, Key(s[i])))
  {
    DedupKeys(s);
    var ks := FirstSeenKeys(s);
    var k := Key(s[i]);
    GroupContains(s, k, i);
    var a0 :| 0 <= a0 < |ks| && ks[a0] == k;
    assert Key(Deduplicated(s)[a0]) == k;
    forall a | 0 <= a < |ks| && Key(Deduplicated(s)[a]) == k
      ensures Deduplicated(s)[a].confidence.Rank() >= s[i].confidence.Rank()
      ensures Deduplicated(s)[a].rawMentions == Mentions(Group(s, k))
    {
      assert Deduplicated(s)[a] == MergeGroup(Group(s, k));
    }
  }

  /** An input belongs to the group of its own key. */
  lemma {:induction false} GroupContains(s: seq<Location>, k: string, i: nat)
    requires i < |s| && Key(s[i]) == k
    ensures s[i] in Group(s, k)
  {
    var t := s[..|s| - 1];
    if i < |t| {
      GroupContains(t, k, i);
    }
  }

  /** A `high` entry followed by a `low` one of the same name: one entry, still `high`, with the
      first one's point and sources and both mentions. */
  lemma HighThenLowKeepsHigh(e: Location, x: Location)
    requires Key(e) == Key(x) && e.confidence == High && x.confidence == Low
    ensures Deduplicated([e, x]) == [e.(rawMentions := e.rawMentions + x.rawMentions)]
  {
    DedupSameKeyPair([e], x);
    assert [e] + [x] == [e, x];
    var a := Absorb(e, x);
    assert a == e.(rawMentions := e.rawMentions + x.rawMentions);
  }

  /** An entry followed by one with the same name: the two merge into one. */
  lemma DedupSameKeyPair(s: seq<Location>, x: Location)
    requires |s| == 1 && Key(s[0]) == Key(x)
    ensures Deduplicated(s + [x]) == [Absorb(s[0], x)]
  {
    DedupSingleton(s);
    DedupStepExisting(s, x, 0);
  }

  lemma DedupSingleton(s: seq<Location>)
    requires |s| == 1
    ensures Deduplicated(s) == s && FirstSeenKeys(s) == [Key(s[0])]
  {
    DedupOfDistinct(s);
    assert s[..0] == [];
  }

  /** `acc.find(l => l.name.toLowerCase() === loc.name.toLowerCase())`, as an index. */
  method FindByKey(acc: seq<Location>, key: string) returns (found: Option<nat>)
    ensures found.None? <==> forall i :: 0 <= i < |acc| ==> Key(acc[i]) != key
    ensures found.Some? ==> found.value < |acc| && Key(acc[found.value]) == key
                            && forall i :: 0 <= i < found.value ==> Key(acc[i]) != key
  {
    var i := 0;
    while i < |acc|
      invariant 0 <= i <= |acc|
      invariant forall h :: 0 <= h < i ==> Key(acc[h]) != key
    {
      if Key(acc[i]) == key {
        return Some(i);
      }
      i := i + 1;
    }
    return None;
  }

  /** One call of the `reduce` callback: the matching entry, if any, absorbs `loc` (its mentions
      are extended and, on a strict confidence upgrade, its point, confidence and sources
      replaced); otherwise `loc` is appended. */
  method MergeInto(acc: seq<Location>, loc: Location, ghost seen: seq<Location>) returns (next: seq<Location>)
    requires acc == Deduplicated(seen)
    ensures next == Deduplicated(seen + [loc])
  {
    DedupKeys(seen);
    var existing := FindByKey(acc, Key(loc));
    match existing {
      case Some(j) =>
        var e := acc[j];
        e := e.(rawMentions := e.rawMentions + loc.rawMentions);
        if Upgrades(loc.confidence, e.confidence) {
          e := e.(confidence := loc.confidence, latitude := loc.latitude,
                  longitude := loc.longitude, sources := loc.sources);
        }
        assert e == Absorb(acc[j], loc);
        DedupStepExisting(seen, loc, j);
        next := acc[j := e];
      case None =>
        DedupStepNew(seen, loc);
        next := acc + [loc];
    }
  }

  /** The `reduce` over the resolved locations, starting from the empty accumulator. */
  method Deduplicate(locations: seq<Location>) returns (acc: seq<Location>)
    ensures acc == Deduplicated(locations)
  {
    acc := [];
    ghost var seen: seq<Location> := [];
    assert Deduplicated(seen) == [];
    var i := 0;
    while i < |locations|
      invariant i <= |locations| && seen == locations[..i]
      invariant acc == Deduplicated(seen)
    {
      acc := MergeInto(acc, locations[i], seen);
      seen := seen + [locations[i]];
      i := i + 1;
    }
    assert seen == locations;
  }
}
