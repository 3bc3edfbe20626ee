/** The brand/product list typed by the user, as both the desktop front end
    (`parseInput` in renderer.js) and the worker (`process_input` in
    shopify_automation.py) read it: a trimmed line ending in ':' names a
    brand and starts (or restarts) its list; every other non-blank line is a
    product of the current brand; product lines before any brand are dropped.
    The two differ only in their whitespace sets and in whether the whole
    input is stripped first. */
module BrandInput {
  import opened Wrappers
  import opened Text

  /** How a line reads once trimmed: blank, a header naming a brand, or a product. */
  datatype Line = Blank | Header(brand: string) | Product(text: string)

  /** The dictionary being built, in insertion order, and the current brand
      ("" while there is none, or after a header with an empty name: both
      are falsy in the source and drop the following products). */
  datatype Grouping = Grouping(order: seq<string>, products: map<string, seq<string>>, current: string)

  const NoBrands: Grouping := Grouping([], map[], "")

  /** A trimmed line ending in ':' is a header; its brand is the text before
      the colon, trimmed. A ':' anywhere else leaves the line a product. */
  function Classify(rt: Runtime, line: string): (l: Line)
    ensures l.Product? ==> l.text != [] && l.text[|l.text| - 1] != ':'
  {
    var t := Strip(rt, line);
    if t == [] then Blank
    else if t[|t| - 1] == ':' then Header(Strip(rt, t[..|t| - 1]))
    else Product(t)
  }

  function Classified(rt: Runtime, lines: seq<string>): (ls: seq<Line>)
    ensures |ls| == |lines|
    ensures forall i :: 0 <= i < |lines| ==> ls[i] == Classify(rt, lines[i])
  {
    if lines == [] then [] else Classified(rt, lines[..|lines| - 1]) + [Classify(rt, lines[|lines| - 1])]
  }

  lemma {:induction false} ClassifiedSnoc(rt: Runtime, lines: seq<string>, k: nat)
    requires k < |lines|
    ensures Classified(rt, lines[..k + 1]) == Classified(rt, lines[..k]) + [Classify(rt, lines[k])]
  {
    assert lines[..k + 1][..k] == lines[..k];
  }

  /** One line of input. */
  function Step(g: Grouping, l: Line): Grouping {
    if l.Header? then
      Grouping(if l.brand in g.products then g.order else g.order + [l.brand], g.products[l.brand := []], l.brand)
    else if l.Product? && g.current != [] && g.current in g.products then
      g.(products := g.products[g.current := g.products[g.current] + [l.text]])
    else g
  }

  /** All the lines, in order. */
  function Group(ls: seq<Line>): Grouping {
    if ls == [] then NoBrands else Step(Group(ls[..|ls| - 1]), ls[|ls| - 1])
  }

  /** The insertion order lists each key once and nothing else, and the
      current brand, when there is one, has a list. */
  ghost predicate Valid(g: Grouping) {
    && NoDups(g.order)
    && (forall b :: b in g.order <==> b in g.products)
    && (g.current != [] ==> g.current in g.products)
  }

  lemma {:induction false} StepValid(g: Grouping, l: Line)
    requires Valid(g)
    ensures Valid(Step(g, l))
  {
    if l.Header? && l.brand !in g.products {
      var order := g.order + [l.brand];
      forall i, j | 0 <= i < j < |order| ensures order[i] != order[j] {
        if j == |order| - 1 {
          assert order[i] in g.order;
        }
      }
    }
  }

  lemma {:induction false} GroupValid(ls: seq<Line>)
    ensures Valid(Group(ls))
  {
    if ls != [] {
      GroupValid(ls[..|ls| - 1]);
      StepValid(Group(ls[..|ls| - 1]), ls[|ls| - 1]);
    }
  }

  // ---------------------------------------------------------------------------
  // A reference reading of the input, position by position

  /** The products listed from position `k` up to the next header. */
  function RunFrom(ls: seq<Line>, k: nat): seq<string>
    decreases |ls| - k
  {
    if k >= |ls| || ls[k].Header? then []
    else if ls[k].Blank? then RunFrom(ls, k + 1)
    else [ls[k].text] + RunFrom(ls, k + 1)
  }

  /** What one line adds to a run still open. */
  function Item(l: Line): seq<string> {
    if l.Product? then [l.text] else []
  }

  predicate NoHeaderFrom(ls: seq<Line>, k: nat) {
    forall i :: k <= i < |ls| ==> !ls[i].Header?
  }

  /** The position of the last header. */
  function LastHeader(ls: seq<Line>): (r: Option<nat>)
    ensures r.Some? ==> r.value < |ls| && ls[r.value].Header? && NoHeaderFrom(ls, r.value + 1)
    ensures r.None? ==> NoHeaderFrom(ls, 0)
  {
    if ls == [] then None
    else if ls[|ls| - 1].Header? then Some(|ls| - 1)
    else LastHeader(ls[..|ls| - 1])
  }

  /** The position of the last header naming `b`. */
  function LastHeaderOf(ls: seq<Line>, b: string): (r: Option<nat>)
    ensures r.Some? ==> r.value < |ls| && ls[r.value] == Header(b)
    ensures r.Some? ==> forall i :: r.value < i < |ls| ==> ls[i] != Header(b)
    ensures r.None? ==> forall i :: 0 <= i < |ls| ==> ls[i] != Header(b)
  {
    if ls == [] then None
    else if ls[|ls| - 1] == Header(b) then Some(|ls| - 1)
    else LastHeaderOf(ls[..|ls| - 1], b)
  }

  /** A line appended to the input extends the run from `k` only while no
      header has closed it. */
  lemma {:induction false} RunSnoc(ls: seq<Line>, l: Line, k: nat)
    requires k <= |ls|
    ensures RunFrom(ls + [l], k) == if NoHeaderFrom(ls, k) then RunFrom(ls, k) + Item(l) else RunFrom(ls, k)
    decreases |ls| - k
  {
    var ls' := ls + [l];
    if k < |ls| {
      assert ls'[k] == ls[k];
      RunSnoc(ls, l, k + 1);
      if !ls[k].Header? {
        assert NoHeaderFrom(ls, k) <==> NoHeaderFrom(ls, k + 1);
      }
    }
  }

  /** What the grouping holds, stated position by position: the current
      brand is the one named by the last header; a brand has a list exactly
      when some header names it; and its list is the run of products after
      the last header naming it, up to the next header (always empty for the
      unnamed brand, whose products are dropped). */
  ghost predicate Means(ls: seq<Line>, g: Grouping) {
    && g.current == (if LastHeader(ls).Some? then ls[LastHeader(ls).value].brand else "")
    && forall b :: BrandMeans(ls, g, b)
  }

  /** The part of `Means` about one brand. */
  ghost predicate BrandMeans(ls: seq<Line>, g: Grouping, b: string) {
    && (b in g.products <==> LastHeaderOf(ls, b).Some?)
    && (b in g.products ==>
          g.products[b] == if b == [] then [] else RunFrom(ls, LastHeaderOf(ls, b).value + 1))
  }

  lemma {:induction false} GroupMeans(ls: seq<Line>)
    ensures Means(ls, Group(ls))
  {
    if ls != [] {
      var init := ls[..|ls| - 1];
      assert ls == init + [ls[|ls| - 1]];
      GroupMeans(init);
      GroupValid(init);
      StepMeans(init, ls[|ls| - 1], Group(init));
    }
  }

  /** The last header of all is the last header of the brand it names. */
  lemma {:induction false} LastHeaderIsLastOf(ls: seq<Line>)
    requires LastHeader(ls).Some?
    ensures LastHeaderOf(ls, ls[LastHeader(ls).value].brand) == LastHeader(ls)
  {
  }

  /** A brand whose last header lies before another header keeps its list
      when a line is appended. */
  lemma {:induction false} ClosedRunKeeps(ls: seq<Line>, l: Line, b: string, h: nat)
    requires LastHeaderOf(ls, b).Some? && LastHeaderOf(ls, b).value < h < |ls| && ls[h].Header?
    ensures RunFrom(ls + [l], LastHeaderOf(ls, b).value + 1) == RunFrom(ls, LastHeaderOf(ls, b).value + 1)
  {
    RunSnoc(ls, l, LastHeaderOf(ls, b).value + 1);
  }

  lemma {:induction false} LastHeadersSnoc(ls: seq<Line>, l: Line, b: string)
    ensures LastHeader(ls + [l]) == if l.Header? then Some(|ls|) else LastHeader(ls)
    ensures LastHeaderOf(ls + [l], b) == if l == Header(b) then Some(|ls|) else LastHeaderOf(ls, b)
  {
    assert (ls + [l])[..|ls|] == ls;
  }

  lemma {:induction false} StepMeans(ls: seq<Line>, l: Line, g: Grouping)
    requires Means(ls, g) && (g.current != [] ==> g.current in g.products)
    ensures Means(ls + [l], Step(g, l))
  {
    StepCurrent(ls, l, g);
    forall b ensures BrandMeans(ls + [l], Step(g, l), b) {
      StepKeepsBrand(ls, l, g, b);
    }
  }

  lemma {:induction false} StepCurrent(ls: seq<Line>, l: Line, g: Grouping)
    requires g.current == (if LastHeader(ls).Some? then ls[LastHeader(ls).value].brand else "")
    ensures var ls' := ls + [l];
      Step(g, l).current == (if LastHeader(ls').Some? then ls'[LastHeader(ls').value].brand else "")
  {
    LastHeadersSnoc(ls, l, "");
    assert (ls + [l])[|ls|] == l;
  }

  /** The list of one brand after one more line. */
  lemma {:induction false} StepKeepsBrand(ls: seq<Line>, l: Line, g: Grouping, b: string)
    requires g.current == (if LastHeader(ls).Some? then ls[LastHeader(ls).value].brand else "")
    requires g.current != [] ==> g.current in g.products
    requires BrandMeans(ls, g, b)
    ensures BrandMeans(ls + [l], Step(g, l), b)
  {
    LastHeadersSnoc(ls, l, b);
    if b != [] && b in Step(g, l).products {
      if l == Header(b) {
        assert (ls + [l])[|ls|] == l;
      } else if l.Product? {
        ProductStepList(ls, l, g, b);
      } else {
        OtherStepList(ls, l, g, b);
      }
    }
  }

  /** A blank line, or a header of another brand, leaves the list as it was. */
  lemma {:induction false} OtherStepList(ls: seq<Line>, l: Line, g: Grouping, b: string)
    requires !l.Product? && l != Header(b)
    requires LastHeaderOf(ls, b).Some? && b in g.products
    requires g.products[b] == RunFrom(ls, LastHeaderOf(ls, b).value + 1)
    ensures Step(g, l).products[b] == RunFrom(ls + [l], LastHeaderOf(ls, b).value + 1)
  {
    var k := LastHeaderOf(ls, b).value + 1;
    var run := RunFrom(ls, k);
    RunSnoc(ls, l, k);
    assert Item(l) == [];
    assert run + [] == run;
    if l.Header? {
      assert l.brand != b;
    }
  }

  lemma {:induction false} ProductStepList(ls: seq<Line>, l: Line, g: Grouping, b: string)
    requires l.Product? && b != []
    requires g.current == (if LastHeader(ls).Some? then ls[LastHeader(ls).value].brand else "")
    requires g.current != [] ==> g.current in g.products
    requires LastHeaderOf(ls, b).Some? && b in g.products
    requires g.products[b] == RunFrom(ls, LastHeaderOf(ls, b).value + 1)
    ensures Step(g, l).products[b] == RunFrom(ls + [l], LastHeaderOf(ls, b).value + 1)
  {
    var k := LastHeaderOf(ls, b).value + 1;
    var run := RunFrom(ls, k);
    ProductKeepsOthers(ls, l, g, b);
    RunSnoc(ls, l, k);
    if b == g.current {
      assert Item(l) == [l.text];
      assert Step(g, l).products[b] == run + [l.text];
    } else {
      assert Step(g, l).products[b] == run;
    }
  }

  /** A product line lands in the current brand's list and in no other. */
  lemma {:induction false} ProductKeepsOthers(ls: seq<Line>, l: Line, g: Grouping, b: string)
    requires l.Product? && b != []
    requires g.current == (if LastHeader(ls).Some? then ls[LastHeader(ls).value].brand else "")
    requires LastHeaderOf(ls, b).Some?
    ensures var hb := LastHeaderOf(ls, b).value;
      b == g.current ==> NoHeaderFrom(ls, hb + 1)
    ensures var hb := LastHeaderOf(ls, b).value;
      b != g.current ==> RunFrom(ls + [l], hb + 1) == RunFrom(ls, hb + 1)
  {
    var hb := LastHeaderOf(ls, b).value;
    if b == g.current {
      LastHeaderIsLastOf(ls);
    } else {
      var h := LastHeader(ls).value;
      assert hb != h;
      ClosedRunKeeps(ls, l, b, h);
    }
  }

  /** Lines before any header are dropped: without a header there is no brand. */
  lemma {:induction false} NoHeaderNoBrands(ls: seq<Line>)
    requires NoHeaderFrom(ls, 0)
    ensures Group(ls).products == map[]
  {
    GroupMeans(ls);
    var g := Group(ls);
    forall b ensures b !in g.products {
      assert BrandMeans(ls, g, b);
    }
  }

  /** Every listed product is one of the lines, trimmed, neither blank nor a header. */
  lemma {:induction false} RunIsProducts(ls: seq<Line>, k: nat)
    ensures forall j :: 0 <= j < |RunFrom(ls, k)| ==> exists i :: k <= i < |ls| && ls[i] == Product(RunFrom(ls, k)[j])
    decreases |ls| - k
  {
    if k < |ls| && !ls[k].Header? {
      RunIsProducts(ls, k + 1);
      var r := RunFrom(ls, k);
      forall j | 0 <= j < |r| ensures exists i :: k <= i < |ls| && ls[i] == Product(r[j]) {
        if ls[k].Product? && j == 0 {
          assert ls[k] == Product(r[0]);
        } else {
          var j' := if ls[k].Product? then j - 1 else j;
          assert r[j] == RunFrom(ls, k + 1)[j'];
          var i :| k + 1 <= i < |ls| && ls[i] == Product(RunFrom(ls, k + 1)[j']);
          assert ls[i] == Product(r[j]);
        }
      }
      assert forall j :: 0 <= j < |RunFrom(ls, k)| ==> exists i :: k <= i < |ls| && ls[i] == Product(RunFrom(ls, k)[j]);
    } else {
      assert RunFrom(ls, k) == [];
    }
  }

  /** Bringing the dictionary up to date with one line, as both sources do it. */
  method ApplyLine(rt: Runtime, g: Grouping, line: string) returns (g': Grouping)
    requires Valid(g)
    ensures g' == Step(g, Classify(rt, line)) && Valid(g')
  {
    StepValid(g, Classify(rt, line));
    var t := Strip(rt, line);
    if t == [] {
      return g;
    }
    if t[|t| - 1] == ':' {
      var b := Strip(rt, t[..|t| - 1]);
      var order := g.order;
      if b !in g.products {
        order := order + [b];
      }
      g' := Grouping(order, g.products[b := []], b);
    } else if g.current != [] {
      g' := g.(products := g.products[g.current := g.products[g.current] + [t]]);
    } else {
      g' := g;
    }
  }

  /** The loop both sources run over the lines of the input. */
  method GroupLines(rt: Runtime, lines: seq<string>) returns (g: Grouping)
    ensures g == Group(Classified(rt, lines))
  {
    g := NoBrands;
    for k := 0 to |lines|
      invariant g == Group(Classified(rt, lines[..k])) && Valid(g)
    {
      ClassifiedSnoc(rt, lines, k);
      g := ApplyLine(rt, g, lines[k]);
    }
    assert lines[..|lines|] == lines;
  }
}
