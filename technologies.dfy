/** The skills section: a constant table of technologies, the list of
    categories drawn from it (`Array.from(new Set(...))`) and one group of
    technologies per category. */
module Technologies {

  /** One row of the table; the icon component is not modelled. */
  datatype Technology = Technology(name: string, color: string, category: string, proficiency: int)

  const Table: seq<Technology> := [
    Technology("React", "#61DAFB", "Frontend", 90),
    Technology("Next.js", "#000000", "Frontend", 85),
    Technology("TypeScript", "#3178C6", "Frontend", 85),
    Technology("JavaScript", "#F7DF1E", "Frontend", 90),
    Technology("HTML5", "#E34F26", "Frontend", 95),
    Technology("CSS3", "#1572B6", "Frontend", 90),
    Technology("Redux", "#764ABC", "Frontend", 80),
    Technology("Tailwind CSS", "#06B6D4", "Frontend", 90),
    Technology("Node.js", "#339933", "Backend", 85),
    Technology("Python", "#3776AB", "Backend", 80),
    Technology("MongoDB", "#47A248", "Backend", 85),
    Technology("PostgreSQL", "#4169E1", "Backend", 80),
    Technology("Git", "#F05032", "Tools", 90),
    Technology("Docker", "#2496ED", "Tools", 75),
    Technology("AWS", "#FF9900", "Tools", 70),
    Technology("Figma", "#F24E1E", "Tools", 80)
  ]

  predicate NoDuplicates<T(==)>(s: seq<T>) {
    forall i, j :: 0 <= i < j < |s| ==> s[i] != s[j]
  }

  /** `techs.map(tech => tech.category)`. */
  function CategoryColumn(techs: seq<Technology>): (r: seq<string>)
    ensures |r| == |techs|
    ensures forall i :: 0 <= i < |techs| ==> r[i] == techs[i].category
  {
    if techs == [] then [] else [techs[0].category] + CategoryColumn(techs[1..])
  }

  /** Inserting `xs` one by one into a JavaScript `Set` whose insertion
      order is `seen`; `Array.from` then lists the set in that order. */
  function InsertAll(seen: seq<string>, xs: seq<string>): seq<string>
    decreases |xs|
  {
    if xs == [] then seen
    else InsertAll(if xs[0] in seen then seen else seen + [xs[0]], xs[1..])
  }

  /** `Array.from(new Set(technologies.map(tech => tech.category)))`. */
  function Categories(techs: seq<Technology>): seq<string> {
    InsertAll([], CategoryColumn(techs))
  }

  /** The index of the first occurrence of `x` in `xs`. */
  function FirstIndex(xs: seq<string>, x: string): (k: nat)
    requires x in xs
    ensures k < |xs| && xs[k] == x && x !in xs[..k]
  {
    if xs[0] == x then 0 else 1 + FirstIndex(xs[1..], x)
  }

  /** Reference definition: the elements of `xs` that do not occur earlier. */
  function FirstOccurrences(xs: seq<string>): (r: seq<string>)
    ensures NoDuplicates(r)
    ensures forall x :: x in r <==> x in xs
  {
    if xs == [] then []
    else
      var init := FirstOccurrences(xs[..|xs| - 1]);
      var last := xs[|xs| - 1];
      assert xs == xs[..|xs| - 1] + [last];
      if last in init then init else init + [last]
  }

  /** Appending one element to the input is one insertion step. */
  lemma FirstOccurrencesSnoc(prefix: seq<string>, x: string)
    ensures var f := FirstOccurrences(prefix);
            FirstOccurrences(prefix + [x]) == if x in f then f else f + [x]
  {
    var p := prefix + [x];
    assert p[..|p| - 1] == prefix;
  }

  /** One insertion into the set of `prefix` gives the set of the longer prefix. */
  lemma InsertAllStep(prefix: seq<string>, xs: seq<string>)
    requires xs != []
    ensures InsertAll(FirstOccurrences(prefix), xs) ==
            InsertAll(FirstOccurrences(prefix + [xs[0]]), xs[1..])
  {
    FirstOccurrencesSnoc(prefix, xs[0]);
  }

  lemma ShiftHead<T>(prefix: seq<T>, xs: seq<T>)
    requires xs != []
    ensures (prefix + [xs[0]]) + xs[1..] == prefix + xs
  {
    assert xs == [xs[0]] + xs[1..];
  }

  /** Set insertion agrees with the reference definition. */
  lemma {:induction false} InsertAllIsFirstOccurrences(prefix: seq<string>, xs: seq<string>)
    decreases |xs|
    ensures InsertAll(FirstOccurrences(prefix), xs) == FirstOccurrences(prefix + xs)
  {
    if xs == [] {
      assert prefix + xs == prefix;
    } else {
      InsertAllStep(prefix, xs);
      ShiftHead(prefix, xs);
      InsertAllIsFirstOccurrences(prefix + [xs[0]], xs[1..]);
    }
  }

  lemma {:induction false} FirstIndexOfPrefix(xs: seq<string>, y: string, x: string)
    requires y in xs
    ensures FirstIndex(xs + [x], y) == FirstIndex(xs, y)
  {
    if xs[0] != y {
      assert (xs + [x])[1..] == xs[1..] + [x];
      FirstIndexOfPrefix(xs[1..], y, x);
    }
  }

  /** `r` lists elements of `xs` in the order of their first appearance there. */
  predicate InFirstAppearanceOrder(xs: seq<string>, r: seq<string>) {
    (forall y :: y in r ==> y in xs)
    && forall i, j :: 0 <= i < j < |r| ==> FirstIndex(xs, r[i]) < FirstIndex(xs, r[j])
  }

  /** Appending to `xs` keeps the first appearances of what it already held. */
  lemma OrderExtends(init: seq<string>, last: string, ri: seq<string>)
    requires InFirstAppearanceOrder(init, ri)
    ensures InFirstAppearanceOrder(init + [last], ri)
    ensures forall y :: y in ri ==> FirstIndex(init + [last], y) < |init|
  {
    forall y | y in ri ensures FirstIndex(init + [last], y) == FirstIndex(init, y) {
      FirstIndexOfPrefix(init, y, last);
    }
  }

  /** A new last element comes after everything that appeared before it. */
  lemma OrderAppend(init: seq<string>, last: string, ri: seq<string>)
    requires InFirstAppearanceOrder(init, ri) && last !in init
    ensures InFirstAppearanceOrder(init + [last], ri + [last])
  {
    var xs := init + [last];
    OrderExtends(init, last, ri);
    var k := FirstIndex(xs, last);
    assert forall m :: 0 <= m < |init| ==> xs[m] == init[m] != last;
    assert k == |init|;
    var r := ri + [last];
    forall i, j | 0 <= i < j < |r| ensures FirstIndex(xs, r[i]) < FirstIndex(xs, r[j]) {
      assert r[i] in ri;
      if j < |ri| {
        assert r[i] == ri[i] && r[j] == ri[j];
      }
    }
  }

  /** The reference list is in order of first appearance. */
  lemma {:induction false} FirstOccurrencesOrdered(xs: seq<string>)
    ensures InFirstAppearanceOrder(xs, FirstOccurrences(xs))
  {
    if xs != [] {
      var init := xs[..|xs| - 1];
      var last := xs[|xs| - 1];
      assert xs == init + [last];
      FirstOccurrencesOrdered(init);
      var ri := FirstOccurrences(init);
      if last in ri {
        OrderExtends(init, last, ri);
      } else {
        OrderAppend(init, last, ri);
      }
    }
  }

  /** `categories` has no duplicates, holds exactly the categories used in
      the table, and lists them in order of first appearance. */
  lemma CategoriesSpec(techs: seq<Technology>)
    ensures var cs := Categories(techs);
            var col := CategoryColumn(techs);
            && NoDuplicates(cs)
            && (forall c :: c in cs <==> c in col)
            && (forall t :: t in techs ==> t.category in cs)
            && InFirstAppearanceOrder(col, cs)
  {
    var col := CategoryColumn(techs);
    InsertAllIsFirstOccurrences([], col);
    assert FirstOccurrences([]) == [];
    assert [] + col == col;
    FirstOccurrencesOrdered(col);
    forall t | t in techs ensures t.category in col {
      var i :| 0 <= i < |techs| && techs[i] == t;
      assert col[i] == t.category;
    }
  }

  /** `technologies.filter(tech => tech.category === category)`. */
  function Group(techs: seq<Technology>, category: string): (r: seq<Technology>)
    ensures |r| <= |techs|
    ensures forall t :: t in r <==> t in techs && t.category == category
  {
    if techs == [] then []
    else if techs[0].category == category then [techs[0]] + Group(techs[1..], category)
    else Group(techs[1..], category)
  }

  /** Grouping runs through the table in order: the group of a
      concatenation is the concatenation of the groups, so each group lists
      its technologies in table order and each as often as the table does. */
  lemma {:induction false} GroupAppend(a: seq<Technology>, b: seq<Technology>, category: string)
    ensures Group(a + b, category) == Group(a, category) + Group(b, category)
  {
    if a == [] {
      assert a + b == b;
    } else {
      var ab := a + b;
      assert ab[0] == a[0] && ab[1..] == a[1..] + b;
      GroupAppend(a[1..], b, category);
      if a[0].category == category {
        assert Group(ab, category) == [a[0]] + Group(a[1..] + b, category);
        assert [a[0]] + (Group(a[1..], category) + Group(b, category))
            == ([a[0]] + Group(a[1..], category)) + Group(b, category);
      } else {
        assert Group(ab, category) == Group(a[1..] + b, category);
      }
    }
  }

  /** The sum of the sizes of the groups of the categories `cs`. */
  function GroupSizes(cs: seq<string>, techs: seq<Technology>): nat {
    if cs == [] then 0 else |Group(techs, cs[0])| + GroupSizes(cs[1..], techs)
  }

  /** How many times `c` occurs in `cs`. */
  function Count(cs: seq<string>, c: string): nat {
    if cs == [] then 0 else (if cs[0] == c then 1 else 0) + Count(cs[1..], c)
  }

  lemma {:induction false} CountDistinct(cs: seq<string>, c: string)
    requires NoDuplicates(cs) && c in cs
    ensures Count(cs, c) == 1
  {
    if cs[0] != c {
      CountDistinct(cs[1..], c);
    } else {
      CountAbsent(cs[1..], c);
    }
  }

  lemma {:induction false} CountAbsent(cs: seq<string>, c: string)
    requires c !in cs
    ensures Count(cs, c) == 0
  {
    if cs != [] {
      CountAbsent(cs[1..], c);
    }
  }

  lemma {:induction false} GroupSizesCons(cs: seq<string>, t: Technology, rest: seq<Technology>)
    ensures GroupSizes(cs, [t] + rest) == GroupSizes(cs, rest) + Count(cs, t.category)
  {
    if cs != [] {
      assert ([t] + rest)[1..] == rest;
      GroupSizesCons(cs[1..], t, rest);
    }
  }

  /** Groups over distinct categories that cover the table partition it:
      their sizes add up to the table's length. */
  lemma {:induction false} GroupsPartition(cs: seq<string>, techs: seq<Technology>)
    requires NoDuplicates(cs)
    requires forall t :: t in techs ==> t.category in cs
    ensures GroupSizes(cs, techs) == |techs|
  {
    if techs == [] {
      GroupSizesEmpty(cs);
    } else {
      assert techs == [techs[0]] + techs[1..];
      GroupSizesCons(cs, techs[0], techs[1..]);
      CountDistinct(cs, techs[0].category);
      GroupsPartition(cs, techs[1..]);
    }
  }

  lemma {:induction false} GroupSizesEmpty(cs: seq<string>)
    ensures GroupSizes(cs, []) == 0
  {
    if cs != [] {
      GroupSizesEmpty(cs[1..]);
    }
  }

  /** Every technology is shown in the group of exactly one category. */
  lemma ExactlyOneGroup(techs: seq<Technology>, t: Technology)
    requires t in techs
    ensures var cs := Categories(techs);
            exists k :: 0 <= k < |cs| && t in Group(techs, cs[k])
              && forall k' :: 0 <= k' < |cs| && t in Group(techs, cs[k']) ==> k' == k
  {
    CategoriesSpec(techs);
    var cs := Categories(techs);
    var k :| 0 <= k < |cs| && cs[k] == t.category;
    assert t in Group(techs, cs[k]);
  }

  /** The groups of the page partition the table. */
  lemma TablePartitioned()
    ensures GroupSizes(Categories(Table), Table) == |Table|
  {
    CategoriesSpec(Table);
    GroupsPartition(Categories(Table), Table);
  }

  /** Every proficiency is a valid percentage for the bar width. */
  lemma ProficienciesArePercentages()
    ensures forall t :: t in Table ==> 0 <= t.proficiency <= 100
  {
  }
}
