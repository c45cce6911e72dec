/** The parsed page as an element tree, the two operations both handlers run
    on it through cheerio (removing every element a noise selector matches,
    and taking the first element a selector matches) and the reference
    descriptions those operations are proved against. */
module Dom {
  import opened Common

  /** A node of the parsed document: an element with its tag name (lower
      case, as the HTML parser produces it), its class set and its children,
      or a run of text. */
  datatype Node =
    | Element(tag: string, classes: set<string>, children: seq<Node>)
    | Text(text: string)

  /** The two kinds of CSS selector the core uses: a type selector (`article`)
      and a list of class selectors (`.content, .post-content`). */
  datatype Selector = Tag(name: string) | AnyClass(names: set<string>)

  predicate Matches(n: Node, sel: Selector) {
    n.Element? &&
    match sel
    case Tag(t) => n.tag == t
    case AnyClass(cs) => n.classes * cs != {}
  }

  /** A noise selector: a list of tag names and class names. */
  datatype NoiseList = NoiseList(tags: set<string>, classes: set<string>)

  /** What is left of a node once its children are forgotten. */
  datatype Label = ElementLabel(tag: string, classes: set<string>) | TextLabel(text: string)

  function LabelOf(n: Node): Label {
    match n
    case Element(t, cs, _) => ElementLabel(t, cs)
    case Text(s) => TextLabel(s)
  }

  predicate NoisyLabel(l: Label, noise: NoiseList) {
    l.ElementLabel? && (l.tag in noise.tags || l.classes * noise.classes != {})
  }

  /** The noise selector matches the node: an element whose tag or one of
      whose classes is listed. Text is never matched. */
  predicate IsNoise(n: Node, noise: NoiseList) {
    NoisyLabel(LabelOf(n), noise)
  }

  function Union(a: NoiseList, b: NoiseList): NoiseList {
    NoiseList(a.tags + b.tags, a.classes + b.classes)
  }

  // ---------------------------------------------------------------------
  // Document order

  /** Every element of the forest in document order (pre-order: an element
      comes before its descendants), each with its subtree. */
  function Elements(ns: seq<Node>): seq<Node> {
    if ns == [] then [] else ElementsOf(ns[0]) + Elements(ns[1..])
  }

  function ElementsOf(n: Node): seq<Node> {
    match n
    case Text(_) => []
    case Element(_, _, kids) => [n] + Elements(kids)
  }

  lemma {:induction false} ElementsAppend(a: seq<Node>, b: seq<Node>)
    ensures Elements(a + b) == Elements(a) + Elements(b)
  {
    if a == [] {
      assert a + b == b;
    } else {
      assert (a + b)[1..] == a[1..] + b;
      ElementsAppend(a[1..], b);
    }
  }

  /** Position of the first entry of `list` the selector matches, or |list|. */
  function FirstIndex(list: seq<Node>, sel: Selector): (k: nat)
    ensures k <= |list|
    ensures k < |list| ==> Matches(list[k], sel)
    ensures forall j :: 0 <= j < k ==> !Matches(list[j], sel)
  {
    if list == [] then 0
    else if Matches(list[0], sel) then 0
    else 1 + FirstIndex(list[1..], sel)
  }

  /** The first entry in a list that the selector matches. */
  function FirstIn(list: seq<Node>, sel: Selector): Option<Node> {
    var k := FirstIndex(list, sel);
    if k < |list| then Some(list[k]) else None
  }

  lemma {:induction false} FirstIndexAppend(a: seq<Node>, b: seq<Node>, sel: Selector)
    ensures FirstIndex(a + b, sel) ==
      if FirstIndex(a, sel) < |a| then FirstIndex(a, sel) else |a| + FirstIndex(b, sel)
  {
    if a == [] {
      assert a + b == b;
    } else {
      assert (a + b)[0] == a[0];
      assert (a + b)[1..] == a[1..] + b;
      FirstIndexAppend(a[1..], b, sel);
    }
  }

  lemma FirstInAppend(a: seq<Node>, b: seq<Node>, sel: Selector)
    ensures FirstIn(a + b, sel) == if FirstIn(a, sel).Some? then FirstIn(a, sel) else FirstIn(b, sel)
  {
    FirstIndexAppend(a, b, sel);
    var ka, kb := FirstIndex(a, sel), FirstIndex(b, sel);
    if ka < |a| {
      assert (a + b)[ka] == a[ka];
    } else if kb < |b| {
      assert (a + b)[|a| + kb] == b[kb];
    }
  }

  /** `$(sel).first()`: a depth-first search of the forest. */
  function FirstMatch(ns: seq<Node>, sel: Selector): (r: Option<Node>)
    ensures r.Some? ==> Matches(r.value, sel)
  {
    if ns == [] then None
    else
      match FirstMatchIn(ns[0], sel)
      case Some(e) => Some(e)
      case None => FirstMatch(ns[1..], sel)
  }

  function FirstMatchIn(n: Node, sel: Selector): (r: Option<Node>)
    ensures r.Some? ==> Matches(r.value, sel)
  {
    if Matches(n, sel) then Some(n)
    else
      match n
      case Element(_, _, kids) => FirstMatch(kids, sel)
      case Text(_) => None
  }

  /** The search finds the first matching element in document order. */
  lemma {:induction false} FirstMatchIsFirstInDocumentOrder(ns: seq<Node>, sel: Selector)
    ensures FirstMatch(ns, sel) == FirstIn(Elements(ns), sel)
  {
    if ns != [] {
      var n := ns[0];
      FirstInAppend(ElementsOf(n), Elements(ns[1..]), sel);
      FirstMatchIsFirstInDocumentOrder(ns[1..], sel);
      match n
      case Text(_) =>
        assert ElementsOf(n) == [];
      case Element(_, _, kids) =>
        FirstMatchIsFirstInDocumentOrder(kids, sel);
        FirstInAppend([n], Elements(kids), sel);
        assert [n] + Elements(kids) == ElementsOf(n);
        assert FirstIndex([n], sel) == (if Matches(n, sel) then 0 else 1);
    }
  }

  /** Spelt out: the search finds something exactly when some element in the
      document matches, and what it finds is a matching element that no
      matching element precedes in document order. */
  lemma FirstMatchSpec(ns: seq<Node>, sel: Selector)
    ensures FirstMatch(ns, sel).None? <==> forall i :: 0 <= i < |Elements(ns)| ==> !Matches(Elements(ns)[i], sel)
    ensures FirstMatch(ns, sel).Some? ==>
      exists i :: 0 <= i < |Elements(ns)| && Elements(ns)[i] == FirstMatch(ns, sel).value
        && Matches(Elements(ns)[i], sel)
        && forall j :: 0 <= j < i ==> !Matches(Elements(ns)[j], sel)
  {
    FirstMatchIsFirstInDocumentOrder(ns, sel);
    var k := FirstIndex(Elements(ns), sel);
    if k < |Elements(ns)| {
      assert Matches(Elements(ns)[k], sel);
    }
  }

  // ---------------------------------------------------------------------
  // Noise pruning

  /** `$(noise).remove()`: every element the noise selector matches is
      detached together with its subtree. */
  function Prune(ns: seq<Node>, noise: NoiseList): seq<Node> {
    if ns == [] then [] else PruneNode(ns[0], noise) + Prune(ns[1..], noise)
  }

  function PruneNode(n: Node, noise: NoiseList): seq<Node> {
    if IsNoise(n, noise) then []
    else
      match n
      case Text(_) => [n]
      case Element(t, cs, kids) => [Element(t, cs, Prune(kids, noise))]
  }

  lemma {:induction false} PruneAppend(a: seq<Node>, b: seq<Node>, noise: NoiseList)
    ensures Prune(a + b, noise) == Prune(a, noise) + Prune(b, noise)
  {
    if a == [] {
      assert a + b == b;
    } else {
      assert (a + b)[1..] == a[1..] + b;
      PruneAppend(a[1..], b, noise);
    }
  }

  /** No element in the forest is matched by the noise selector. */
  ghost predicate NoNoise(ns: seq<Node>, noise: NoiseList) {
    forall i :: 0 <= i < |Elements(ns)| ==> !IsNoise(Elements(ns)[i], noise)
  }

  lemma NoNoiseAppend(a: seq<Node>, b: seq<Node>, noise: NoiseList)
    ensures NoNoise(a + b, noise) <==> NoNoise(a, noise) && NoNoise(b, noise)
  {
    ElementsAppend(a, b);
    var ea, eb := Elements(a), Elements(b);
    if NoNoise(a + b, noise) {
      forall i | 0 <= i < |ea| ensures !IsNoise(ea[i], noise) {
        assert (ea + eb)[i] == ea[i];
      }
      forall i | 0 <= i < |eb| ensures !IsNoise(eb[i], noise) {
        assert (ea + eb)[|ea| + i] == eb[i];
      }
    }
    if NoNoise(a, noise) && NoNoise(b, noise) {
      forall i | 0 <= i < |ea + eb| ensures !IsNoise((ea + eb)[i], noise) {
        if i < |ea| {
          assert (ea + eb)[i] == ea[i];
        } else {
          assert (ea + eb)[i] == eb[i - |ea|];
        }
      }
    }
  }

  /** After pruning, no element the noise selector matches is left anywhere
      in the tree. */
  lemma {:induction false} PruneLeavesNoNoise(ns: seq<Node>, noise: NoiseList)
    ensures NoNoise(Prune(ns, noise), noise)
  {
    if ns != [] {
      var n := ns[0];
      PruneLeavesNoNoise(ns[1..], noise);
      NoNoiseAppend(PruneNode(n, noise), Prune(ns[1..], noise), noise);
      if !IsNoise(n, noise) {
        match n
        case Text(_) =>
          assert Elements([n]) == [];
        case Element(t, cs, kids) =>
          PruneLeavesNoNoise(kids, noise);
          var m := Element(t, cs, Prune(kids, noise));
          assert Elements([m]) == [m] + Elements(Prune(kids, noise));
      }
    }
  }

  /** Pruning a forest that holds no noise changes nothing. */
  lemma {:induction false} PruneCleanIsIdentity(ns: seq<Node>, noise: NoiseList)
    requires NoNoise(ns, noise)
    ensures Prune(ns, noise) == ns
  {
    if ns != [] {
      var n := ns[0];
      assert ns == [n] + ns[1..];
      NoNoiseAppend([n], ns[1..], noise);
      PruneCleanIsIdentity(ns[1..], noise);
      match n
      case Text(_) =>
      case Element(t, cs, kids) =>
        assert Elements([n]) == [n] + Elements(kids);
        assert Elements([n])[0] == n;
        assert NoNoise(kids, noise) by {
          forall i | 0 <= i < |Elements(kids)|
            ensures !IsNoise(Elements(kids)[i], noise)
          {
            assert Elements([n])[1 + i] == Elements(kids)[i];
          }
        }
        PruneCleanIsIdentity(kids, noise);
    }
  }

  /** Pruning changes the forest exactly when there is noise in it. */
  lemma PruneIdentityIff(ns: seq<Node>, noise: NoiseList)
    ensures Prune(ns, noise) == ns <==> NoNoise(ns, noise)
  {
    PruneLeavesNoNoise(ns, noise);
    if NoNoise(ns, noise) {
      PruneCleanIsIdentity(ns, noise);
    }
  }

  /** Removing the noise a second time removes nothing more. */
  lemma PruneIdempotent(ns: seq<Node>, noise: NoiseList)
    ensures Prune(Prune(ns, noise), noise) == Prune(ns, noise)
  {
    PruneLeavesNoNoise(ns, noise);
    PruneCleanIsIdentity(Prune(ns, noise), noise);
  }

  /** Pruning by one list and then by another is pruning by both at once. */
  lemma {:induction false} PruneCompose(ns: seq<Node>, a: NoiseList, b: NoiseList)
    ensures Prune(Prune(ns, a), b) == Prune(ns, Union(a, b))
  {
    if ns != [] {
      var n := ns[0];
      PruneAppend(PruneNode(n, a), Prune(ns[1..], a), b);
      PruneCompose(ns[1..], a, b);
      assert IsNoise(n, Union(a, b)) <==> IsNoise(n, a) || IsNoise(n, b);
      if !IsNoise(n, a) {
        match n
        case Text(_) =>
          assert Prune([n], b) == PruneNode(n, b) + Prune([], b);
        case Element(t, cs, kids) =>
          var m := Element(t, cs, Prune(kids, a));
          assert Prune([m], b) == PruneNode(m, b) + Prune([], b);
          PruneCompose(kids, a, b);
      }
    }
  }

  // ---------------------------------------------------------------------
  // The outline: the reference description of what pruning keeps

  /** One node in document order: its label and the labels of the elements
      above it, outermost first. */
  datatype Entry = Entry(item: Label, ancestors: seq<Label>)

  /** Every node of the forest, elements and text, in document order, each
      with its chain of ancestors (`above` is the chain above the forest). */
  function Outline(ns: seq<Node>, above: seq<Label>): seq<Entry> {
    if ns == [] then [] else OutlineOf(ns[0], above) + Outline(ns[1..], above)
  }

  function OutlineOf(n: Node, above: seq<Label>): seq<Entry> {
    match n
    case Text(_) => [Entry(LabelOf(n), above)]
    case Element(_, _, kids) => [Entry(LabelOf(n), above)] + Outline(kids, above + [LabelOf(n)])
  }

  ghost predicate CleanChain(ls: seq<Label>, noise: NoiseList) {
    forall k :: 0 <= k < |ls| ==> !NoisyLabel(ls[k], noise)
  }

  /** A node survives when neither it nor any of its ancestors is noise. */
  ghost predicate Survives(e: Entry, noise: NoiseList) {
    !NoisyLabel(e.item, noise) && CleanChain(e.ancestors, noise)
  }

  ghost function KeepSurvivors(es: seq<Entry>, noise: NoiseList): seq<Entry> {
    if es == [] then []
    else (if Survives(es[0], noise) then [es[0]] else []) + KeepSurvivors(es[1..], noise)
  }

  lemma {:induction false} KeepSurvivorsAppend(a: seq<Entry>, b: seq<Entry>, noise: NoiseList)
    ensures KeepSurvivors(a + b, noise) == KeepSurvivors(a, noise) + KeepSurvivors(b, noise)
  {
    if a == [] {
      assert a + b == b;
    } else {
      assert (a + b)[1..] == a[1..] + b;
      KeepSurvivorsAppend(a[1..], b, noise);
    }
  }

  /** Below a noise element nothing survives. */
  lemma {:induction false} NothingSurvivesUnderNoise(ns: seq<Node>, above: seq<Label>, noise: NoiseList)
    requires !CleanChain(above, noise)
    ensures KeepSurvivors(Outline(ns, above), noise) == []
  {
    if ns != [] {
      var n := ns[0];
      KeepSurvivorsAppend(OutlineOf(n, above), Outline(ns[1..], above), noise);
      NothingSurvivesUnderNoise(ns[1..], above, noise);
      match n
      case Text(_) =>
      case Element(_, _, kids) =>
        var l := LabelOf(n);
        KeepSurvivorsAppend([Entry(l, above)], Outline(kids, above + [l]), noise);
        assert !CleanChain(above + [l], noise) by {
          var k :| 0 <= k < |above| && NoisyLabel(above[k], noise);
          assert (above + [l])[k] == above[k];
        }
        NothingSurvivesUnderNoise(kids, above + [l], noise);
    }
  }

  lemma {:induction false} OutlinePruneUnder(ns: seq<Node>, above: seq<Label>, noise: NoiseList)
    requires CleanChain(above, noise)
    ensures Outline(Prune(ns, noise), above) == KeepSurvivors(Outline(ns, above), noise)
  {
    if ns != [] {
      var n := ns[0];
      var l := LabelOf(n);
      OutlineAppend(PruneNode(n, noise), Prune(ns[1..], noise), above);
      KeepSurvivorsAppend(OutlineOf(n, above), Outline(ns[1..], above), noise);
      OutlinePruneUnder(ns[1..], above, noise);
      match n
      case Text(_) =>
        assert Outline([n], above) == OutlineOf(n, above) + Outline([], above);
      case Element(t, cs, kids) =>
        KeepSurvivorsAppend([Entry(l, above)], Outline(kids, above + [l]), noise);
        if IsNoise(n, noise) {
          assert !CleanChain(above + [l], noise) by {
            assert (above + [l])[|above|] == l;
          }
          NothingSurvivesUnderNoise(kids, above + [l], noise);
        } else {
          assert CleanChain(above + [l], noise) by {
            forall k | 0 <= k < |above + [l]|
              ensures !NoisyLabel((above + [l])[k], noise)
            {
              if k < |above| { assert (above + [l])[k] == above[k]; }
            }
          }
          OutlinePruneUnder(kids, above + [l], noise);
          var m := Element(t, cs, Prune(kids, noise));
          assert Outline([m], above) == OutlineOf(m, above) + Outline([], above);
          assert LabelOf(m) == l;
        }
    }
  }

  lemma {:induction false} OutlineAppend(a: seq<Node>, b: seq<Node>, above: seq<Label>)
    ensures Outline(a + b, above) == Outline(a, above) + Outline(b, above)
  {
    if a == [] {
      assert a + b == b;
    } else {
      assert (a + b)[1..] == a[1..] + b;
      OutlineAppend(a[1..], b, above);
    }
  }

  /** What pruning keeps: a node of the document survives exactly when
      neither it nor any ancestor is matched by the noise selector, and the
      survivors keep their document order and their ancestors. */
  lemma PruneKeepsExactlySurvivors(ns: seq<Node>, noise: NoiseList)
    ensures Outline(Prune(ns, noise), []) == KeepSurvivors(Outline(ns, []), noise)
  {
    OutlinePruneUnder(ns, [], noise);
  }
}
