/** Splitting one cart into one group of lines per seller. */
module CartSplit {
  import opened Results

  /** A cart row joined with its product and the seller's commission rate (hundredths of a percent). */
  datatype Line = Line(
    product: nat, seller: nat, rate: nat, price: Option<nat>, fixedPrice: bool, published: bool, quantity: nat)

  datatype Group = Group(seller: nat, rate: nat, lines: seq<Line>)

  function LineTotalCents(l: Line): nat {
    if l.price.Some? then l.price.value * l.quantity else 0
  }

  function TotalCents(lines: seq<Line>): nat {
    if lines == [] then 0 else LineTotalCents(lines[0]) + TotalCents(lines[1..])
  }

  /** How many units of one product the lines ask for. */
  function Units(lines: seq<Line>, product: nat): nat {
    if lines == [] then 0
    else (if lines[0].product == product then lines[0].quantity else 0) + Units(lines[1..], product)
  }

  function OfSeller(lines: seq<Line>, seller: nat): (kept: seq<Line>)
    ensures |kept| <= |lines| && forall l | l in kept :: l in lines && l.seller == seller
  {
    if lines == [] then []
    else if lines[0].seller == seller then [lines[0]] + OfSeller(lines[1..], seller)
    else OfSeller(lines[1..], seller)
  }

  function NotOfSeller(lines: seq<Line>, seller: nat): (kept: seq<Line>)
    ensures |kept| <= |lines| && forall l | l in kept :: l in lines && l.seller != seller
  {
    if lines == [] then []
    else if lines[0].seller == seller then NotOfSeller(lines[1..], seller)
    else [lines[0]] + NotOfSeller(lines[1..], seller)
  }

  /** One group per seller, in order of first appearance; each keeps the cart's order. */
  function Split(lines: seq<Line>): seq<Group>
    decreases |lines|
  {
    if lines == [] then []
    else
      var first := lines[0];
      [Group(first.seller, first.rate, OfSeller(lines, first.seller))] + Split(NotOfSeller(lines[1..], first.seller))
  }

  function Flatten(groups: seq<Group>): seq<Line> {
    if groups == [] then [] else groups[0].lines + Flatten(groups[1..])
  }

  function SumSubtotals(groups: seq<Group>): nat {
    if groups == [] then 0 else TotalCents(groups[0].lines) + SumSubtotals(groups[1..])
  }

  function SumUnits(groups: seq<Group>, product: nat): nat {
    if groups == [] then 0 else Units(groups[0].lines, product) + SumUnits(groups[1..], product)
  }

  lemma {:induction false} SellerSplits(lines: seq<Line>, seller: nat, product: nat)
    ensures var kept, rest := OfSeller(lines, seller), NotOfSeller(lines, seller);
            && TotalCents(kept) + TotalCents(rest) == TotalCents(lines)
            && Units(kept, product) + Units(rest, product) == Units(lines, product)
            && multiset(kept) + multiset(rest) == multiset(lines)
  {
    if lines != [] {
      SellerSplits(lines[1..], seller, product);
      assert lines == [lines[0]] + lines[1..];
    }
  }

  /** The groups of a cart lose nothing and invent nothing: same lines, same units of every product, same cents. */
  lemma {:induction false} SplitIsPartition(lines: seq<Line>, product: nat)
    ensures multiset(Flatten(Split(lines))) == multiset(lines)
    ensures SumSubtotals(Split(lines)) == TotalCents(lines)
    ensures SumUnits(Split(lines), product) == Units(lines, product)
    decreases |lines|
  {
    if lines != [] {
      var first := lines[0];
      var rest := NotOfSeller(lines[1..], first.seller);
      assert rest == NotOfSeller(lines, first.seller);
      SellerSplits(lines, first.seller, product);
      SplitIsPartition(rest, product);
      var groups := Split(lines);
      assert groups[1..] == Split(rest);
    }
  }

  lemma {:induction false} FilterTwice(lines: seq<Line>, seller: nat, other: nat)
    requires seller != other
    ensures OfSeller(NotOfSeller(lines, other), seller) == OfSeller(lines, seller)
  {
    if lines != [] {
      FilterTwice(lines[1..], seller, other);
    }
  }

  /** A single line is a single group. */
  lemma SplitOne(l: Line)
    ensures Split([l]) == [Group(l.seller, l.rate, [l])] && Units([l], l.product) == l.quantity
    ensures TotalCents([l]) == LineTotalCents(l)
  {
    var lines := [l];
    assert lines[1..] == [];
    assert OfSeller(lines, l.seller) == lines && NotOfSeller(lines[1..], l.seller) == [];
  }

  predicate HasGroup(groups: seq<Group>, seller: nat) {
    exists i :: 0 <= i < |groups| && groups[i].seller == seller
  }

  predicate DistinctSellers(groups: seq<Group>) {
    forall i, j | 0 <= i < j < |groups| :: groups[i].seller != groups[j].seller
  }

  /** No group is empty, and each is exactly its seller's lines. */
  predicate GroupsOf(groups: seq<Group>, lines: seq<Line>) {
    forall g | g in groups :: g.lines != [] && g.lines == OfSeller(lines, g.seller)
  }

  lemma GroupIsElsewhere(lines: seq<Line>, first: Line, g: Group)
    requires var rest := NotOfSeller(lines, first.seller); g.lines != [] && g.lines == OfSeller(rest, g.seller)
    ensures g.seller != first.seller && g.lines == OfSeller([first] + lines, g.seller)
  {
    assert g.lines[0] in g.lines;
    assert g.lines[0] in NotOfSeller(lines, first.seller);
    FilterTwice(lines, g.seller, first.seller);
    assert ([first] + lines)[1..] == lines;
  }

  /** The groups of a cart are its sellers, each exactly once and with exactly its lines. */
  lemma {:induction false} SplitGroupsAreSellers(lines: seq<Line>)
    ensures DistinctSellers(Split(lines)) && GroupsOf(Split(lines), lines)
    decreases |lines|
  {
    if lines != [] {
      var first := lines[0];
      var rest := NotOfSeller(lines[1..], first.seller);
      SplitGroupsAreSellers(rest);
      assert lines == [first] + lines[1..];
      forall g | g in Split(rest)
        ensures g.seller != first.seller && g.lines != [] && g.lines == OfSeller(lines, g.seller)
      {
        GroupIsElsewhere(lines[1..], first, g);
      }
    }
  }

  /** Every line's seller has a group. */
  lemma {:induction false} SplitCoversSellers(lines: seq<Line>, l: Line)
    requires l in lines
    ensures HasGroup(Split(lines), l.seller)
    decreases |lines|
  {
    var first := lines[0];
    var groups := Split(lines);
    if l.seller == first.seller {
      assert groups[0].seller == l.seller;
    } else {
      var rest := NotOfSeller(lines[1..], first.seller);
      KeptByOthers(lines[1..], first.seller, l);
      SplitCoversSellers(rest, l);
      var i :| 0 <= i < |Split(rest)| && Split(rest)[i].seller == l.seller;
      assert groups[i + 1].seller == l.seller;
    }
  }

  lemma {:induction false} KeptByOthers(lines: seq<Line>, seller: nat, l: Line)
    requires l in lines && l.seller != seller
    ensures l in NotOfSeller(lines, seller)
  {
    if lines[0] != l {
      KeptByOthers(lines[1..], seller, l);
    }
  }

  // ---------------------------------------------------------------------
  // The loop over a growing map of groups
  // ---------------------------------------------------------------------

  /** groups.get(seller) for a map kept as its insertion-ordered entries. */
  function FindSeller<T>(entries: seq<T>, sellerOf: T -> nat, seller: nat): (i: nat)
    ensures i <= |entries|
    ensures i < |entries| ==> sellerOf(entries[i]) == seller
  {
    if entries == [] || sellerOf(entries[0]) == seller then 0 else 1 + FindSeller(entries[1..], sellerOf, seller)
  }

  function SellerOf(g: Group): nat {
    g.seller
  }

  function Find(groups: seq<Group>, seller: nat): (i: nat)
    ensures i <= |groups|
    ensures i < |groups| ==> groups[i].seller == seller
  {
    FindSeller(groups, SellerOf, seller)
  }

  /** Pushes a line into its seller's group, opening one at the end when there is none. */
  function Push(groups: seq<Group>, l: Line): seq<Group> {
    var i := Find(groups, l.seller);
    if i == |groups| then groups + [Group(l.seller, l.rate, [l])]
    else groups[i := groups[i].(lines := groups[i].lines + [l])]
  }

  lemma {:induction false} FilterSnoc(lines: seq<Line>, l: Line, seller: nat)
    ensures OfSeller(lines + [l], seller) == OfSeller(lines, seller) + (if l.seller == seller then [l] else [])
    ensures NotOfSeller(lines + [l], seller) == NotOfSeller(lines, seller) + (if l.seller == seller then [] else [l])
  {
    if lines != [] {
      FilterSnoc(lines[1..], l, seller);
      assert (lines + [l])[1..] == lines[1..] + [l];
    }
  }

  /** Where the head group and the remaining lines of a longer cart come from. */
  lemma HeadAndRest(lines: seq<Line>, l: Line)
    requires lines != []
    ensures var first, rest := lines[0], NotOfSeller(lines[1..], lines[0].seller);
            var added: seq<Line> := if l.seller == first.seller then [l] else [];
            var left: seq<Line> := if l.seller == first.seller then [] else [l];
            Split(lines + [l])
              == [Group(first.seller, first.rate, OfSeller(lines, first.seller) + added)] + Split(rest + left)
  {
    var first := lines[0];
    assert (lines + [l])[1..] == lines[1..] + [l];
    FilterSnoc(lines, l, first.seller);
    FilterSnoc(lines[1..], l, first.seller);
  }

  lemma PushBehind(g: Group, groups: seq<Group>, l: Line)
    ensures g.seller != l.seller ==> Push([g] + groups, l) == [g] + Push(groups, l)
    ensures g.seller == l.seller ==> Push([g] + groups, l) == [g.(lines := g.lines + [l])] + groups
  {}

  /** Splitting a cart with one more line is pushing that line into the split so far. */
  lemma {:induction false} SplitSnoc(lines: seq<Line>, l: Line)
    ensures Split(lines + [l]) == Push(Split(lines), l)
    decreases |lines|
  {
    if lines == [] {
      assert [l][1..] == [] && lines + [l] == [l];
      assert OfSeller([l], l.seller) == [l];
    } else {
      var first := lines[0];
      var rest := NotOfSeller(lines[1..], first.seller);
      HeadAndRest(lines, l);
      PushBehind(Group(first.seller, first.rate, OfSeller(lines, first.seller)), Split(rest), l);
      if l.seller != first.seller {
        SplitSnoc(rest, l);
        assert OfSeller(lines, first.seller) + [] == OfSeller(lines, first.seller);
      } else {
        assert rest + [] == rest;
      }
    }
  }

  function Open(groups: seq<Group>, l: Line): seq<Group> {
    if Find(groups, l.seller) == |groups| then groups + [Group(l.seller, l.rate, [])] else groups
  }

  lemma PushInTwoSteps(groups: seq<Group>, l: Line)
    ensures var at, grown := Find(groups, l.seller), Open(groups, l);
            at < |grown| && Push(groups, l) == grown[at := grown[at].(lines := grown[at].lines + [l])]
  {
    assert [] + [l] == [l];
  }

  method GroupBySeller(cartItems: seq<Line>) returns (groups: seq<Group>)
    ensures groups == Split(cartItems)
  {
    assert Split([]) == [] && cartItems[..0] == [];
    hide Split;
    groups := [];
    for i := 0 to |cartItems|
      invariant groups == Split(cartItems[..i])
    {
      var item := cartItems[i];
      PushInTwoSteps(groups, item);
      var at := Find(groups, item.seller);
      if at == |groups| {
        groups := groups + [Group(item.seller, item.rate, [])];
      }
      groups := groups[at := groups[at].(lines := groups[at].lines + [item])];
      assert cartItems[..i + 1] == cartItems[..i] + [item];
      SplitSnoc(cartItems[..i], item);
    }
    assert cartItems[..|cartItems|] == cartItems;
  }
}
