/** The product page: the quantity selector's clamps, the gallery's fallback
    image, when the selector and the add-to-cart button are usable, and the
    grouping of the technical specifications under their group headings. */
module ProductDetail {
  import opened Common
  import opened Text
  import opened Store

  // ---------------------------------------------------------------------
  // Quantity selector

  function Max(a: int, b: int): int { if a >= b then a else b }

  function Min(a: int, b: int): int { if a <= b then a else b }

  /** The typed quantity: `parseInt(value) || 1` (NaN and 0 become 1), then
      at most the stock and at least 1. */
  function TypedQuantity(stock: int, typed: string): (q: int)
    ensures q >= 1
    ensures stock >= 1 ==> q <= stock
    ensures ParseInt(typed).Some? && 1 <= ParseInt(typed).value <= stock ==> q == ParseInt(typed).value
    ensures (ParseInt(typed).None? || ParseInt(typed) == Some(0)) ==> q == 1
  {
    var n := match ParseInt(typed) case None => 1 case Some(v) => if v == 0 then 1 else v;
    Max(1, Min(stock, n))
  }

  /** The minus button. */
  function Decrement(q: int): (r: int)
    ensures r >= 1
    ensures q > 1 ==> r == q - 1
    ensures q <= 1 ==> r == 1
  {
    Max(1, q - 1)
  }

  /** The plus button. */
  function Increment(stock: int, q: int): (r: int)
    ensures r <= stock
    ensures q < stock ==> r == q + 1
    ensures q >= stock ==> r == stock
  {
    Min(stock, q + 1)
  }

  /** Starting in [1, stock], both buttons keep the quantity there. */
  lemma ButtonsStayInRange(stock: int, q: int)
    requires 1 <= q <= stock
    ensures 1 <= Decrement(q) <= stock
    ensures 1 <= Increment(stock, q) <= stock
  {
  }

  /** Away from the bounds the two buttons undo each other. */
  lemma ButtonsInverse(stock: int, q: int)
    requires 1 <= q <= stock
    ensures q < stock ==> Decrement(Increment(stock, q)) == q
    ensures q > 1 ==> Increment(stock, Decrement(q)) == q
  {
  }

  /** Typing back the quantity shown keeps it: the clamp is idempotent on
      values it produces. */
  lemma TypedQuantityFixed(stock: int, q: int)
    requires 1 <= q <= stock
    ensures TypedQuantity(stock, NatToDecimal(q)) == q
  {
    ParseNatToDecimal(q);
  }

  // ---------------------------------------------------------------------
  // Gallery and buttons

  const Placeholder := "/placeholder.jpg"

  /** The gallery's images: the product's own, or a single placeholder
      captioned with the product's name. */
  function DisplayImages(p: Product): (r: seq<Image>)
    ensures r != []
    ensures p.images != [] ==> r == p.images
    ensures p.images == [] ==> |r| == 1 && r[0].url == Placeholder && r[0].alt == p.name
  {
    if |p.images| > 0 then p.images else [Image(Placeholder, p.name, false)]
  }

  function SelectorShown(p: Product): bool { p.stock > 0 }

  function AddToCartDisabled(p: Product): bool { p.stock == 0 }

  /** With a stock that is not negative the quantity selector is shown
      exactly when the add-to-cart button is enabled. */
  lemma ControlsAgree(p: Product)
    requires p.stock >= 0
    ensures SelectorShown(p) <==> !AddToCartDisabled(p)
  {
  }

  // ---------------------------------------------------------------------
  // Specification groups

  /** `spec.group || 'General'`. */
  function GroupName(s: Spec): string {
    if Truthy(s.group) then s.group.value else "General"
  }

  /** The specs of group `g`, in input order. */
  function InGroup(specs: seq<Spec>, g: string): (r: seq<Spec>)
    ensures |r| <= |specs|
  {
    if specs == [] then []
    else
      var p := specs[..|specs| - 1];
      var s := specs[|specs| - 1];
      assert specs == p + [s];
      InGroup(p, g) + (if GroupName(s) == g then [s] else [])
  }

  /** The group headings, in order of first appearance, each once. */
  function GroupNames(specs: seq<Spec>): seq<string> {
    if specs == [] then []
    else
      var p := specs[..|specs| - 1];
      var s := specs[|specs| - 1];
      assert specs == p + [s];
      GroupNames(p) + (if GroupName(s) in GroupNames(p) then [] else [GroupName(s)])
  }

  /** A group holds exactly the specs that name it. */
  lemma {:induction false} InGroupMembers(specs: seq<Spec>, g: string)
    ensures forall s :: s in InGroup(specs, g) <==> s in specs && GroupName(s) == g
  {
    if specs != [] {
      var p := specs[..|specs| - 1];
      assert specs == p + [specs[|specs| - 1]];
      InGroupMembers(p, g);
    }
  }

  /** The headings are exactly the groups the specs name. */
  lemma {:induction false} GroupNamesMembers(specs: seq<Spec>)
    ensures forall g :: g in GroupNames(specs) <==> exists s :: s in specs && GroupName(s) == g
  {
    if specs != [] {
      var p := specs[..|specs| - 1];
      assert specs == p + [specs[|specs| - 1]];
      GroupNamesMembers(p);
    }
  }

  predicate Distinct(names: seq<string>) {
    forall i, j :: 0 <= i < j < |names| ==> names[i] != names[j]
  }

  lemma {:induction false} GroupNamesDistinct(specs: seq<Spec>)
    ensures Distinct(GroupNames(specs))
  {
    if specs != [] {
      GroupNamesDistinct(specs[..|specs| - 1]);
    }
  }

  /** The object the `reduce` builds: one entry per heading with its specs. */
  function Grouped(specs: seq<Spec>): (r: seq<(string, seq<Spec>)>)
    ensures |r| == |GroupNames(specs)|
    ensures forall k :: 0 <= k < |r| ==> r[k] == (GroupNames(specs)[k], InGroup(specs, GroupNames(specs)[k]))
  {
    var names := GroupNames(specs);
    seq(|names|, k requires 0 <= k < |names| => (names[k], InGroup(specs, names[k])))
  }

  function FindGroup(groups: seq<(string, seq<Spec>)>, g: string): (r: Option<nat>)
    ensures r.None? ==> forall k :: 0 <= k < |groups| ==> groups[k].0 != g
    ensures r.Some? ==> r.value < |groups| && groups[r.value].0 == g
  {
    if groups == [] then None
    else if groups[0].0 == g then Some(0)
    else match FindGroup(groups[1..], g)
      case None => None
      case Some(k) => Some(k + 1)
  }

  lemma InGroupStep(p: seq<Spec>, s: Spec, g: string)
    ensures InGroup(p + [s], g) == InGroup(p, g) + (if GroupName(s) == g then [s] else [])
  {
    var q := p + [s];
    assert q[..|q| - 1] == p && q[|q| - 1] == s;
  }

  lemma GroupNamesStep(p: seq<Spec>, s: Spec)
    ensures GroupNames(p + [s]) == GroupNames(p) + (if GroupName(s) in GroupNames(p) then [] else [GroupName(s)])
  {
    var q := p + [s];
    assert q[..|q| - 1] == p && q[|q| - 1] == s;
  }

  /** A group that is not among the headings holds no spec. */
  lemma {:induction false} EmptyGroup(p: seq<Spec>, g: string)
    requires g !in GroupNames(p)
    ensures InGroup(p, g) == []
  {
    if p != [] {
      var p' := p[..|p| - 1];
      var s := p[|p| - 1];
      assert p == p' + [s];
      GroupNamesStep(p', s);
      InGroupStep(p', s, g);
      EmptyGroup(p', g);
    }
  }

  /** One step of the `reduce` for a new heading: it is appended. */
  lemma GroupedStepNew(p: seq<Spec>, s: Spec)
    requires FindGroup(Grouped(p), GroupName(s)).None?
    ensures Grouped(p + [s]) == Grouped(p) + [(GroupName(s), [s])]
  {
    var before := Grouped(p);
    var g := GroupName(s);
    var names := GroupNames(p);
    assert forall k :: 0 <= k < |names| ==> names[k] == before[k].0;
    assert g !in names;
    GroupNamesStep(p, s);
    var after := Grouped(p + [s]);
    assert |after| == |before| + 1;
    forall k | 0 <= k < |after|
      ensures after[k] == (before + [(g, [s])])[k]
    {
      var q := p + [s];
      if k < |names| {
        assert GroupNames(q)[k] == names[k] && names[k] != g;
        InGroupStep(p, s, names[k]);
        assert after[k] == (GroupNames(q)[k], InGroup(q, GroupNames(q)[k]));
        assert InGroup(q, names[k]) == InGroup(p, names[k]);
        assert after[k] == (names[k], InGroup(p, names[k]));
      } else {
        assert GroupNames(q)[k] == g;
        InGroupStep(p, s, g);
        EmptyGroup(p, g);
        assert after[k] == (GroupNames(q)[k], InGroup(q, GroupNames(q)[k]));
        assert InGroup(q, g) == [] + [s] == [s];
      }
    }
  }

  /** One step of the `reduce` for a known heading: the spec goes at the end
      of its list. */
  lemma GroupedStepKnown(p: seq<Spec>, s: Spec, k: nat)
    requires FindGroup(Grouped(p), GroupName(s)) == Some(k)
    ensures Grouped(p + [s]) == Grouped(p)[k := (GroupName(s), Grouped(p)[k].1 + [s])]
  {
    var before := Grouped(p);
    var g := GroupName(s);
    assert GroupNames(p)[k] == g;
    GroupNamesStep(p, s);
    var after := Grouped(p + [s]);
    forall j | 0 <= j < |after|
      ensures after[j] == before[k := (g, before[k].1 + [s])][j]
    {
      var name := GroupNames(p)[j];
      assert GroupNames(p + [s])[j] == name;
      InGroupStep(p, s, name);
      if j != k {
        GroupNamesDistinct(p);
        assert name != g;
        assert after[j] == (GroupNames(p + [s])[j], InGroup(p + [s], GroupNames(p + [s])[j]));
        assert InGroup(p + [s], name) == InGroup(p, name);
      } else {
        assert after[j] == (GroupNames(p + [s])[j], InGroup(p + [s], GroupNames(p + [s])[j]));
        assert InGroup(p + [s], g) == InGroup(p, g) + [s];
      }
    }
  }

  /** The names a plain `{}` inherits from `Object.prototype`. For such a
      group `acc[group]` is the inherited member, which is truthy, so no
      array is made and `push` on it throws a TypeError. */
  const InheritedNames: set<string> :=
    {"constructor", "__proto__", "__defineGetter__", "__defineSetter__",
     "__lookupGetter__", "__lookupSetter__", "hasOwnProperty", "isPrototypeOf",
     "propertyIsEnumerable", "toString", "toLocaleString", "valueOf"}

  predicate Inherited(g: string) {
    g in InheritedNames
  }

  /** Some spec names an inherited group, so the `reduce` throws. */
  predicate GroupingThrows(specs: seq<Spec>) {
    exists i :: 0 <= i < |specs| && Inherited(GroupName(specs[i]))
  }

  /** `specs.reduce(...)` with its accumulator updated in place; `None` is the
      TypeError it throws at the first spec of an inherited group. */
  method GroupSpecs(specs: seq<Spec>) returns (r: Option<seq<(string, seq<Spec>)>>)
    ensures r.None? <==> GroupingThrows(specs)
    ensures r.Some? ==> r.value == Grouped(specs)
  {
    var groups := [];
    for i := 0 to |specs|
      invariant groups == Grouped(specs[..i])
      invariant forall j :: 0 <= j < i ==> !Inherited(GroupName(specs[j]))
    {
      var s := specs[i];
      var g := GroupName(s);
      if Inherited(g) {
        return None;
      }
      assert specs[..i + 1] == specs[..i] + [s];
      var found := FindGroup(groups, g);
      if found.None? {
        GroupedStepNew(specs[..i], s);
        groups := groups + [(g, [s])];
      } else {
        var k := found.value;
        GroupedStepKnown(specs[..i], s, k);
        groups := groups[k := (g, groups[k].1 + [s])];
      }
    }
    assert specs[..|specs|] == specs;
    r := Some(groups);
  }

  /** Every spec appears under exactly one heading, its own group or
      'General'; headings are not repeated and none is empty. */
  lemma EachSpecInOneGroup(specs: seq<Spec>)
    ensures Distinct(GroupNames(specs))
    ensures forall s, k :: s in specs && 0 <= k < |Grouped(specs)| ==>
              (s in Grouped(specs)[k].1 <==> Grouped(specs)[k].0 == GroupName(s))
    ensures forall s :: s in specs ==> exists k :: 0 <= k < |Grouped(specs)| && Grouped(specs)[k].0 == GroupName(s)
    ensures forall k :: 0 <= k < |Grouped(specs)| ==> Grouped(specs)[k].1 != []
  {
    GroupNamesDistinct(specs);
    GroupNamesMembers(specs);
    var r := Grouped(specs);
    forall k | 0 <= k < |r|
      ensures forall s :: s in r[k].1 <==> s in specs && GroupName(s) == r[k].0
    {
      InGroupMembers(specs, r[k].0);
    }
    forall s | s in specs
      ensures exists k :: 0 <= k < |r| && r[k].0 == GroupName(s)
    {
      assert GroupName(s) in GroupNames(specs);
      var k :| 0 <= k < |GroupNames(specs)| && GroupNames(specs)[k] == GroupName(s);
      assert r[k].0 == GroupName(s);
    }
    forall k | 0 <= k < |r|
      ensures r[k].1 != []
    {
      var g := GroupNames(specs)[k];
      assert g in GroupNames(specs);
      var s :| s in specs && GroupName(s) == g;
      assert s in r[k].1;
    }
  }

  /** Grouping keeps the input order within a group: the group of a
      concatenation is the concatenation of the groups. */
  lemma {:induction false} InGroupAppend(a: seq<Spec>, b: seq<Spec>, g: string)
    ensures InGroup(a + b, g) == InGroup(a, g) + InGroup(b, g)
    decreases |b|
  {
    if b == [] {
      assert a + b == a;
    } else {
      var b' := b[..|b| - 1];
      var s := b[|b| - 1];
      var tail := if GroupName(s) == g then [s] else [];
      calc {
        InGroup(a + b, g);
        == { assert a + b == (a + b') + [s]; }
        InGroup((a + b') + [s], g);
        == { InGroupStep(a + b', s, g); }
        InGroup(a + b', g) + tail;
        == { InGroupAppend(a, b', g); }
        InGroup(a, g) + InGroup(b', g) + tail;
        == { InGroupStep(b', s, g); assert b' + [s] == b; }
        InGroup(a, g) + InGroup(b, g);
      }
    }
  }
}
