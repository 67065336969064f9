/** The body-system tags of the catalogue (src/utils/systemUtils.ts): the sorted
    list of distinct tags, their display metadata with a fallback for tags the
    table does not know, the option list headed by "all", and tag validation.
    Strings are ordered by code point, lexicographically. */
module SystemUtils {
  import opened Basics
  import opened DrugTypes

  // ---------------------------------------------------------------------------
  // The order `Array.prototype.sort` puts strings in.

  /** `a` sorts strictly before `b`: a proper prefix comes first, otherwise the
      first differing character decides. */
  predicate LexLess(a: string, b: string)
  {
    if |a| == 0 then |b| > 0
    else if |b| == 0 then false
    else if a[0] != b[0] then a[0] < b[0]
    else LexLess(a[1..], b[1..])
  }

  lemma {:induction false} LexIrreflexive(a: string)
    ensures !LexLess(a, a)
  {
    if |a| > 0 {
      LexIrreflexive(a[1..]);
    }
  }

  lemma {:induction false} LexTransitive(a: string, b: string, c: string)
    requires LexLess(a, b) && LexLess(b, c)
    ensures LexLess(a, c)
  {
    if |a| > 0 && a[0] == b[0] && b[0] == c[0] {
      LexTransitive(a[1..], b[1..], c[1..]);
    }
  }

  /** Any two different strings are ordered one way, and only one way. */
  lemma {:induction false} LexTotal(a: string, b: string)
    ensures a != b <==> LexLess(a, b) || LexLess(b, a)
    ensures !(LexLess(a, b) && LexLess(b, a))
  {
    if |a| > 0 && |b| > 0 && a[0] == b[0] {
      LexTotal(a[1..], b[1..]);
      assert a == [a[0]] + a[1..] && b == [b[0]] + b[1..];
    } else if a == b {
      LexIrreflexive(a);
    }
  }

  /** Each element sorts strictly before every later one, so there are also no
      duplicates. */
  predicate StrictlySorted(s: seq<string>)
  {
    forall i, j :: 0 <= i < j < |s| ==> LexLess(s[i], s[j])
  }

  /** Adding `x` to a sorted list of distinct strings, as a set would. */
  function Insert(s: seq<string>, x: string): (r: seq<string>)
    ensures forall y :: y in r <==> y in s || y == x
  {
    if s == [] then [x]
    else if x == s[0] then s
    else if LexLess(x, s[0]) then [x] + s
    else [s[0]] + Insert(s[1..], x)
  }

  /** Insertion keeps a list sorted. */
  lemma {:induction false} InsertSorted(s: seq<string>, x: string)
    requires StrictlySorted(s)
    ensures StrictlySorted(Insert(s, x))
    decreases |s|, 1
  {
    if s != [] && x != s[0] {
      if LexLess(x, s[0]) {
        InsertFront(s, x);
      } else {
        InsertAfter(s, x);
      }
    }
  }

  lemma InsertFront(s: seq<string>, x: string)
    requires s != [] && StrictlySorted(s) && LexLess(x, s[0])
    ensures StrictlySorted([x] + s)
  {
    forall j | 0 < j < |s|
      ensures LexLess(x, s[j])
    {
      LexTransitive(x, s[0], s[j]);
    }
  }

  lemma {:induction false} InsertAfter(s: seq<string>, x: string)
    requires s != [] && StrictlySorted(s) && x != s[0] && !LexLess(x, s[0])
    ensures StrictlySorted([s[0]] + Insert(s[1..], x))
    decreases |s|, 0
  {
    LexTotal(x, s[0]);
    var t := Insert(s[1..], x);
    assert StrictlySorted(s[1..]);
    InsertSorted(s[1..], x);
    forall j | 0 <= j < |t|
      ensures LexLess(s[0], t[j])
    {
      assert t[j] in s[1..] || t[j] == x;
    }
  }

  /** Two sorted lists of distinct strings with the same elements are the same
      list: the sorted form of a set is unique. */
  lemma {:induction false} SortedUnique(a: seq<string>, b: seq<string>)
    requires StrictlySorted(a) && StrictlySorted(b)
    requires forall x :: x in a <==> x in b
    ensures a == b
  {
    HeadIsMember(a);
    HeadIsMember(b);
    if a != [] && b != [] {
      // Each head occurs in the other list, and a head precedes everything
      // after it, so the heads are equal.
      var j :| 0 <= j < |b| && b[j] == a[0];
      var k :| 0 <= k < |a| && a[k] == b[0];
      LexTotal(a[0], b[0]);
      assert a[0] == b[0];
      forall x
        ensures x in a[1..] <==> x in b[1..]
      {
        if x in a[1..] {
          var i :| 1 <= i < |a| && a[i] == x;
          LexIrreflexive(x);
        }
        if x in b[1..] {
          var i :| 1 <= i < |b| && b[i] == x;
          LexIrreflexive(x);
        }
        assert x in a <==> x == a[0] || x in a[1..];
        assert x in b <==> x == b[0] || x in b[1..];
      }
      SortedUnique(a[1..], b[1..]);
      assert a == [a[0]] + a[1..] && b == [b[0]] + b[1..];
    }
  }

  lemma HeadIsMember(s: seq<string>)
    ensures s != [] ==> s[0] in s
  {
  }

  // ---------------------------------------------------------------------------
  // getUniqueSystems (systemUtils.ts:47-55). A drug without a system tag has the
  // empty string here, which the source's truthiness test skips.

  /** The tags that occur, as the source's Set holds them. */
  function SystemSet(drugs: seq<Drug>): (s: set<string>)
    ensures forall t :: t in s <==> t != "" && exists d :: d in drugs && d.system == t
  {
    if drugs == [] then {}
    else
      var init := drugs[..|drugs| - 1];
      var last := drugs[|drugs| - 1];
      assert drugs == init + [last];
      SystemSet(init) + (if last.system != "" then {last.system} else {})
  }

  /** Reference definition of the result: the tags of `SystemSet` in sorted
      order. */
  function UniqueSystems(drugs: seq<Drug>): (r: seq<string>)
    ensures StrictlySorted(r)
    ensures forall t :: t in r <==> t in SystemSet(drugs)
  {
    if drugs == [] then []
    else
      var init := drugs[..|drugs| - 1];
      var last := drugs[|drugs| - 1];
      assert SystemSet(drugs) == SystemSet(init) + (if last.system != "" then {last.system} else {});
      if last.system != "" then
        InsertSorted(UniqueSystems(init), last.system);
        Insert(UniqueSystems(init), last.system)
      else UniqueSystems(init)
  }

  /** Collect the tags into a set, then sort the set's elements. */
  method GetUniqueSystems(drugs: seq<Drug>) returns (r: seq<string>)
    ensures r == UniqueSystems(drugs)
  {
    var systems: set<string> := {};
    for i := 0 to |drugs|
      invariant systems == SystemSet(drugs[..i])
    {
      assert drugs[..i + 1][..i] == drugs[..i];
      if drugs[i].system != "" {
        systems := systems + {drugs[i].system};
      }
    }
    assert drugs[..|drugs|] == drugs;
    r := [];
    var rest := systems;
    while rest != {}
      invariant StrictlySorted(r)
      invariant forall t :: t in r <==> t in systems && t !in rest
      invariant rest <= systems
      decreases |rest|
    {
      var x :| x in rest;
      InsertSorted(r, x);
      r := Insert(r, x);
      rest := rest - {x};
    }
    SortedUnique(r, UniqueSystems(drugs));
  }

  /** The list holds each tag once, in ascending order, and exactly the
      non-empty tags of the drugs. */
  lemma UniqueSystemsMeaning(drugs: seq<Drug>, t: string)
    ensures Distinct(UniqueSystems(drugs))
    ensures t in UniqueSystems(drugs) <==> t != "" && exists d :: d in drugs && d.system == t
  {
    var r := UniqueSystems(drugs);
    forall i, j | 0 <= i < j < |r|
      ensures r[i] != r[j]
    {
      LexTotal(r[i], r[j]);
    }
  }

  /** The order of the drugs does not matter. */
  lemma UniqueSystemsOrderFree(drugs: seq<Drug>, other: seq<Drug>)
    requires forall d :: d in drugs <==> d in other
    ensures UniqueSystems(drugs) == UniqueSystems(other)
  {
    SortedUnique(UniqueSystems(drugs), UniqueSystems(other));
  }

  // ---------------------------------------------------------------------------
  // Metadata (systemUtils.ts:4-42, 60-83).

  datatype Meta = Meta(name: string, icon: string, color: string)
  datatype SystemInfo = SystemInfo(key: string, name: string, icon: string, color: string)

  /** The metadata table, including the four legacy aliases. */
  const SystemMetadata: map<string, Meta> := map[
    "ANS" := Meta("Autonomic Nervous System", "🔗", "#9f7aea"),
    "CNS" := Meta("Central Nervous System", "🧠", "#805ad5"),
    "CVS" := Meta("Cardiovascular System", "❤️", "#e53e3e"),
    "Renal" := Meta("Renal System / Diuretics", "🫘", "#4299e1"),
    "Respiratory" := Meta("Respiratory System", "🫁", "#38b2ac"),
    "GIT" := Meta("Gastrointestinal System", "🍽️", "#d69e2e"),
    "Endocrine" := Meta("Endocrine System", "⚖️", "#38a169"),
    "Reproductive" := Meta("Reproductive System", "🌸", "#ed64a6"),
    "Hematological" := Meta("Hematological System", "🩸", "#c53030"),
    "Immune" := Meta("Immune System / Immunomodulators", "🛡️", "#48bb78"),
    "Musculoskeletal" := Meta("Musculoskeletal System", "🦴", "#a0aec0"),
    "Antimicrobial" := Meta("Antimicrobial Drugs", "🦠", "#3182ce"),
    "Antiparasitic" := Meta("Antiparasitic Drugs", "🪱", "#f56500"),
    "Antiviral" := Meta("Antiviral Drugs", "🦠", "#0bc5ea"),
    "Antifungal" := Meta("Antifungal Drugs", "🍄", "#68d391"),
    "Anticancer" := Meta("Anticancer / Chemotherapy", "🎗️", "#fc8181"),
    "Dermatological" := Meta("Skin and Mucous Membranes", "🧴", "#fbb6ce"),
    "Vitamins" := Meta("Vitamins and Minerals", "💊", "#fbd38d"),
    "Toxicology" := Meta("Toxicology / Antidotes", "☠️", "#718096"),
    "Miscellaneous" := Meta("Miscellaneous / Others", "🔬", "#a78bfa"),
    "Vaccines" := Meta("Vaccines & Diagnostic Agents", "💉", "#4fd1c7"),
    "GI" := Meta("Gastrointestinal System", "🍽️", "#d69e2e"),
    "Antibiotics" := Meta("Antimicrobial Drugs", "🦠", "#3182ce"),
    "Hemo" := Meta("Hematological System", "🩸", "#c53030"),
    "Cardio" := Meta("Cardiovascular System", "❤️", "#e53e3e")
  ]

  const DefaultIcon: string := "💊"
  const DefaultColor: string := "#666"

  /** The entry for `key`: its table entry when it has one, otherwise the
      default icon and colour with the key itself as label. */
  function GetSystemInfo(key: string): (r: SystemInfo)
    ensures r.key == key
    ensures key in SystemMetadata ==>
      r.name == SystemMetadata[key].name && r.icon == SystemMetadata[key].icon &&
      r.color == SystemMetadata[key].color
    ensures key !in SystemMetadata ==> r.name == key && r.icon == DefaultIcon && r.color == DefaultColor
  {
    if key in SystemMetadata then
      var m := SystemMetadata[key];
      SystemInfo(key, m.name, m.icon, m.color)
    else SystemInfo(key, key, DefaultIcon, DefaultColor)
  }

  /** The legacy tags show exactly as the tags they stand for. */
  lemma LegacyGastrointestinal()
    ensures GetSystemInfo("GI") == GetSystemInfo("GIT").(key := "GI")
  {
  }

  lemma LegacyAntimicrobial()
    ensures GetSystemInfo("Antibiotics") == GetSystemInfo("Antimicrobial").(key := "Antibiotics")
  {
  }

  lemma LegacyHematological()
    ensures GetSystemInfo("Hemo") == GetSystemInfo("Hematological").(key := "Hemo")
  {
  }

  lemma LegacyCardiovascular()
    ensures GetSystemInfo("Cardio") == GetSystemInfo("CVS").(key := "Cardio")
  {
  }

  /** The entries of the sorted tag list, in the same order. */
  function GetSystemsWithMetadata(drugs: seq<Drug>): (r: seq<SystemInfo>)
    ensures |r| == |UniqueSystems(drugs)|
    ensures forall i :: 0 <= i < |r| ==> r[i] == GetSystemInfo(UniqueSystems(drugs)[i])
  {
    var systems := UniqueSystems(drugs);
    seq(|systems|, i requires 0 <= i < |systems| => GetSystemInfo(systems[i]))
  }

  // ---------------------------------------------------------------------------
  // getAllSystemOptions (systemUtils.ts:88-95) and isValidSystem (100-103).

  const AllOption: SystemInfo := SystemInfo("all", "All Systems", "🏥", "#666")

  /** The "all" entry first, then every system entry in order. */
  function GetAllSystemOptions(drugs: seq<Drug>): (r: seq<SystemInfo>)
    ensures |r| == 1 + |UniqueSystems(drugs)|
    ensures r[0] == AllOption
    ensures r[1..] == GetSystemsWithMetadata(drugs)
  {
    [AllOption] + GetSystemsWithMetadata(drugs)
  }

  /** Unless some drug is tagged "all", every key of the option list is
      different. */
  lemma AllSystemOptionsKeysDistinct(drugs: seq<Drug>)
    requires forall d :: d in drugs ==> d.system != "all"
    ensures forall i, j :: 0 <= i < j < |GetAllSystemOptions(drugs)| ==>
      GetAllSystemOptions(drugs)[i].key != GetAllSystemOptions(drugs)[j].key
  {
    var r := GetAllSystemOptions(drugs);
    var u := UniqueSystems(drugs);
    forall i, j | 0 <= i < j < |r|
      ensures r[i].key != r[j].key
    {
      assert r[j] == GetSystemsWithMetadata(drugs)[j - 1];
      assert r[j].key == u[j - 1];
      if i == 0 {
        UniqueSystemsMeaning(drugs, "all");
        assert u[j - 1] in u;
      } else {
        assert r[i].key == u[i - 1];
        LexTotal(u[i - 1], u[j - 1]);
      }
    }
  }

  /** Whether some drug carries the tag. */
  function IsValidSystem(key: string, drugs: seq<Drug>): (b: bool)
    ensures b <==> key != "" && exists d :: d in drugs && d.system == key
  {
    key in UniqueSystems(drugs)
  }
}
