/** What a customer is shown before checking out, built through printed and re-read amounts. */
module CartViews {
  import opened Results
  import opened Money
  import opened CartSplit
  import B = OrderBooks

  datatype ItemView = ItemView(product: nat, unitPrice: string, quantity: nat, lineTotal: string)
  datatype SellerView = SellerView(seller: nat, items: seq<ItemView>, subtotal: string)
  datatype CartView = CartView(sellers: seq<SellerView>, itemCount: nat, totalAmount: string)

  // ---------------------------------------------------------------------
  // The view in terms of amounts, with no text in between
  // ---------------------------------------------------------------------

  predicate IsPurchasable(l: Line) {
    l.published && l.fixedPrice && l.price.Some?
  }

  function Purchasable(rows: seq<Line>): (kept: seq<Line>)
    ensures forall l | l in kept :: l in rows && IsPurchasable(l)
  {
    if rows == [] then [] else (if IsPurchasable(rows[0]) then [rows[0]] else []) + Purchasable(rows[1..])
  }

  function Quantity(lines: seq<Line>): nat {
    if lines == [] then 0 else lines[0].quantity + Quantity(lines[1..])
  }

  function ItemViewOf(l: Line): ItemView {
    ItemView(l.product, FormatCentsToMoney(B.OrZero(l.price)), l.quantity, FormatCentsToMoney(LineTotalCents(l)))
  }

  function ItemViews(lines: seq<Line>): (views: seq<ItemView>)
    ensures |views| == |lines| && forall i | 0 <= i < |lines| :: views[i] == ItemViewOf(lines[i])
  {
    if lines == [] then [] else [ItemViewOf(lines[0])] + ItemViews(lines[1..])
  }

  function OpenView(g: Group): SellerView {
    SellerView(g.seller, ItemViews(g.lines), "0.00")
  }

  function OpenViews(groups: seq<Group>): (views: seq<SellerView>)
    ensures |views| == |groups| && forall i | 0 <= i < |groups| :: views[i] == OpenView(groups[i])
  {
    if groups == [] then [] else [OpenView(groups[0])] + OpenViews(groups[1..])
  }

  function SellerViews(groups: seq<Group>): (views: seq<SellerView>)
    ensures |views| == |groups|
    ensures forall i | 0 <= i < |groups| ::
              views[i] == OpenView(groups[i]).(subtotal := FormatCentsToMoney(TotalCents(groups[i].lines)))
  {
    if groups == [] then []
    else [OpenView(groups[0]).(subtotal := FormatCentsToMoney(TotalCents(groups[0].lines)))] + SellerViews(groups[1..])
  }

  function ViewOf(rows: seq<Line>): CartView {
    var kept := Purchasable(rows);
    CartView(SellerViews(Split(kept)), Quantity(kept), FormatCentsToMoney(TotalCents(kept)))
  }

  // ---------------------------------------------------------------------
  // The loops that build it
  // ---------------------------------------------------------------------

  /** groups.get(seller) */
  function ShownSeller(view: SellerView): nat {
    view.seller
  }

  function FindView(views: seq<SellerView>, seller: nat): nat {
    FindSeller(views, ShownSeller, seller)
  }

  lemma {:induction false} FindsSameGroup(groups: seq<Group>, seller: nat)
    ensures FindView(OpenViews(groups), seller) == Find(groups, seller)
  {
    if groups != [] {
      FindsSameGroup(groups[1..], seller);
      assert OpenViews(groups)[1..] == OpenViews(groups[1..]);
    }
  }

  lemma ItemViewsSnoc(lines: seq<Line>, l: Line)
    ensures ItemViews(lines + [l]) == ItemViews(lines) + [ItemViewOf(l)]
  {}

  /** One turn of the grouping loop: open the seller's group if it is missing, then push the item's view. */
  lemma PushedView(groups: seq<Group>, l: Line)
    ensures var views, at := OpenViews(groups), Find(groups, l.seller);
            var grown := if at == |views| then views + [SellerView(l.seller, [], "0.00")] else views;
            at < |grown|
            && OpenViews(Push(groups, l)) == grown[at := grown[at].(items := grown[at].items + [ItemViewOf(l)])]
  {
    var at := Find(groups, l.seller);
    if at < |groups| {
      ItemViewsSnoc(groups[at].lines, l);
    } else {
      ItemViewsSnoc([], l);
      assert [] + [l] == [l];
    }
  }

  method BuildView(rows: seq<Line>) returns (view: CartView)
    ensures view == ViewOf(rows)
  {
    var kept := KeepPurchasable(rows);
    var groups := GroupItems(kept);
    var sellers := PriceSellers(Split(kept), groups);
    var itemCount := CountItems(Split(kept), sellers);
    var totalAmount := AddSubtotals(Split(kept), sellers);
    SplitIsPartition(kept, 0);
    SplitKeepsQuantity(kept);
    view := CartView(sellers, itemCount, totalAmount);
  }

  method KeepPurchasable(rows: seq<Line>) returns (kept: seq<Line>)
    ensures kept == Purchasable(rows)
  {
    kept := [];
    for i := 0 to |rows|
      invariant kept + Purchasable(rows[i..]) == Purchasable(rows)
    {
      assert rows[i..][1..] == rows[i + 1..];
      if rows[i].published && rows[i].fixedPrice && rows[i].price.Some? {
        kept := kept + [rows[i]];
      }
    }
  }

  lemma NothingToShow(kept: seq<Line>)
    ensures OpenViews(Split(kept[..0])) == []
  {
    assert kept[..0] == [];
  }

  method GroupItems(kept: seq<Line>) returns (groups: seq<SellerView>)
    requires forall i | 0 <= i < |kept| :: IsPurchasable(kept[i])
    ensures groups == OpenViews(Split(kept))
  {
    NothingToShow(kept);
    hide *;
    groups := [];
    ghost var split := Split(kept[..0]);
    for i := 0 to |kept|
      invariant split == Split(kept[..i])
      invariant groups == OpenViews(split)
    {
      groups := PushItem(split, groups, kept[i]);
      assert kept[..i + 1] == kept[..i] + [kept[i]];
      SplitSnoc(kept[..i], kept[i]);
      split := Push(split, kept[i]);
    }
    assert kept[..|kept|] == kept;
  }

  method PushItem(ghost split: seq<Group>, groups: seq<SellerView>, item: Line) returns (pushed: seq<SellerView>)
    requires groups == OpenViews(split) && IsPurchasable(item)
    ensures pushed == OpenViews(Push(split, item))
  {
    hide Push, ItemViewOf, IsPurchasable;
    FindsSameGroup(split, item.seller);
    PushedView(split, item);
    pushed := groups;
    var at := FindView(groups, item.seller);
    if at == |groups| {
      pushed := groups + [SellerView(item.seller, [], "0.00")];
    }
    var itemView := PriceItem(item);
    pushed := pushed[at := pushed[at].(items := pushed[at].items + [itemView])];
  }

  /** The product's price column is text, read to cents and multiplied out. */
  method PriceItem(item: Line) returns (view: ItemView)
    requires IsPurchasable(item)
    ensures view == ItemViewOf(item)
  {
    hide FormatCentsToMoney, ParseMoneyToCents;
    var price := FormatCentsToMoney(item.price.value);
    ParseUndoesFormat(item.price.value);
    var lineTotalCents := ParseMoneyToCents(price).value * item.quantity;
    view := ItemView(item.product, price, item.quantity, FormatCentsToMoney(lineTotalCents));
  }

  /** A group's subtotal is read back from its items' printed line totals. */
  method PriceSellers(ghost split: seq<Group>, groups: seq<SellerView>) returns (sellers: seq<SellerView>)
    requires groups == OpenViews(split)
    ensures sellers == SellerViews(split)
  {
    hide FormatCentsToMoney, ParseMoneyToCents;
    sellers := [];
    for i := 0 to |groups|
      invariant sellers + SellerViews(split[i..]) == SellerViews(split)
    {
      assert split[i..][1..] == split[i + 1..];
      var subtotalCents := AddLineTotals(split[i].lines, groups[i].items);
      sellers := sellers + [groups[i].(subtotal := FormatCentsToMoney(subtotalCents))];
    }
  }

  method AddLineTotals(ghost lines: seq<Line>, items: seq<ItemView>) returns (cents: int)
    requires items == ItemViews(lines)
    ensures cents == TotalCents(lines)
  {
    hide FormatCentsToMoney, ParseMoneyToCents;
    cents := 0;
    for i := 0 to |items|
      invariant cents + TotalCents(lines[i..]) == TotalCents(lines)
    {
      assert lines[i..][1..] == lines[i + 1..];
      ParseUndoesFormat(LineTotalCents(lines[i]));
      cents := cents + ParseMoneyToCents(items[i].lineTotal).value;
    }
  }

  method AddSubtotals(ghost split: seq<Group>, sellers: seq<SellerView>) returns (total: string)
    requires sellers == SellerViews(split)
    ensures total == FormatCentsToMoney(SumSubtotals(split))
  {
    hide FormatCentsToMoney, ParseMoneyToCents;
    var cents := 0;
    for i := 0 to |sellers|
      invariant cents + SumSubtotals(split[i..]) == SumSubtotals(split)
    {
      assert split[i..][1..] == split[i + 1..];
      ParseUndoesFormat(TotalCents(split[i].lines));
      cents := cents + ParseMoneyToCents(sellers[i].subtotal).value;
    }
    total := FormatCentsToMoney(cents);
  }

  function SumQuantities(groups: seq<Group>): nat {
    if groups == [] then 0 else Quantity(groups[0].lines) + SumQuantities(groups[1..])
  }

  method CountItems(ghost split: seq<Group>, sellers: seq<SellerView>) returns (count: nat)
    requires sellers == SellerViews(split)
    ensures count == SumQuantities(split)
  {
    count := 0;
    for i := 0 to |sellers|
      invariant count + SumQuantities(split[i..]) == SumQuantities(split)
    {
      assert split[i..][1..] == split[i + 1..];
      var inGroup := CountInGroup(split[i].lines, sellers[i].items);
      count := count + inGroup;
    }
  }

  method CountInGroup(ghost lines: seq<Line>, items: seq<ItemView>) returns (count: nat)
    requires items == ItemViews(lines)
    ensures count == Quantity(lines)
  {
    hide FormatCentsToMoney;
    count := 0;
    for j := 0 to |items|
      invariant count + Quantity(lines[j..]) == Quantity(lines)
    {
      assert lines[j..][1..] == lines[j + 1..];
      count := count + items[j].quantity;
    }
  }

  lemma {:induction false} SellerSplitsQuantity(lines: seq<Line>, seller: nat)
    ensures Quantity(OfSeller(lines, seller)) + Quantity(NotOfSeller(lines, seller)) == Quantity(lines)
  {
    if lines != [] {
      SellerSplitsQuantity(lines[1..], seller);
    }
  }

  lemma {:induction false} SplitKeepsQuantity(lines: seq<Line>)
    ensures SumQuantities(Split(lines)) == Quantity(lines)
    decreases |lines|
  {
    if lines != [] {
      var rest := NotOfSeller(lines[1..], lines[0].seller);
      assert rest == NotOfSeller(lines, lines[0].seller);
      SellerSplitsQuantity(lines, lines[0].seller);
      SplitKeepsQuantity(rest);
      assert Split(lines)[1..] == Split(rest);
    }
  }

  // ---------------------------------------------------------------------
  // What is shown is what is charged
  // ---------------------------------------------------------------------

  lemma {:induction false} TotalWithout(lines: seq<Line>, i: nat)
    requires i < |lines|
    ensures TotalCents(lines) == LineTotalCents(lines[i]) + TotalCents(lines[..i] + lines[i + 1..])
  {
    if i == 0 {
      assert lines[..0] + lines[1..] == lines[1..];
    } else {
      TotalWithout(lines[1..], i - 1);
      assert (lines[..i] + lines[i + 1..])[1..] == lines[1..][..i - 1] + lines[1..][i..];
    }
  }

  lemma WithoutOne(lines: seq<Line>, i: nat)
    requires i < |lines|
    ensures multiset(lines[..i] + lines[i + 1..]) == multiset(lines) - multiset{lines[i]}
  {
    assert lines == lines[..i] + [lines[i]] + lines[i + 1..];
  }

  lemma SameLength(lines: seq<Line>, permuted: seq<Line>)
    requires multiset(lines) == multiset(permuted)
    ensures |lines| == |permuted|
  {
    assert |multiset(lines)| == |lines| && |multiset(permuted)| == |permuted|;
  }

  /** Reordering a cart does not change its total. */
  lemma {:induction false} TotalOfPermutation(lines: seq<Line>, permuted: seq<Line>)
    requires multiset(lines) == multiset(permuted)
    ensures TotalCents(lines) == TotalCents(permuted)
    decreases |lines|
  {
    SameLength(lines, permuted);
    if lines != [] {
      hide TotalCents;
      assert lines[0] in multiset(lines);
      var i :| 0 <= i < |permuted| && permuted[i] == lines[0];
      WithoutOne(permuted, i);
      WithoutOne(lines, 0);
      TotalWithout(permuted, i);
      TotalWithout(lines, 0);
      TotalOfPermutation(lines[..0] + lines[1..], permuted[..i] + permuted[i + 1..]);
    }
  }

  lemma {:induction false} PurchasableIsAll(rows: seq<Line>)
    requires forall l | l in rows :: IsPurchasable(l)
    ensures Purchasable(rows) == rows
  {
    if rows != [] {
      PurchasableIsAll(rows[1..]);
    }
  }

  /** Checkout accepts a cart exactly when the view drops none of it. */
  lemma {:induction false} NoneRefusedIff(cart: seq<Line>, from: nat)
    requires from <= |cart|
    ensures B.FirstRefused(cart, from).None? <==> forall i | from <= i < |cart| :: IsPurchasable(cart[i])
    decreases |cart| - from
  {
    if from < |cart| {
      NoneRefusedIff(cart, from + 1);
    }
  }

  lemma {:induction false} FilterOfPermutation(lines: seq<Line>, seller: nat, l: Line)
    ensures multiset(OfSeller(lines, seller))[l] == if l.seller == seller then multiset(lines)[l] else 0
  {
    if lines != [] {
      FilterOfPermutation(lines[1..], seller, l);
      assert lines == [lines[0]] + lines[1..];
    }
  }

  predicate ShowsSubtotal(view: CartView, seller: nat, text: string) {
    exists i :: 0 <= i < |view.sellers| && view.sellers[i].seller == seller && view.sellers[i].subtotal == text
  }

  /**
   The total a customer is shown is the total of the order a checkout of the same rows places, and each seller's
   printed subtotal is that seller's order's subtotal, whatever order the two queries return the rows in.
   */
  lemma ShownIsCharged(b: B.Books, customer: nat, key: string, rows: seq<Line>, cart: seq<Line>, now: int)
    requires multiset(rows) == multiset(cart)
    requires B.CheckoutOutcome(b, customer, key, cart) == Ok(B.Placed(|b.orders|))
    ensures ViewOf(rows).totalAmount == FormatCentsToMoney(TotalCents(cart))
    ensures forall g | g in Split(cart) ::
              ShowsSubtotal(ViewOf(rows), g.seller, FormatCentsToMoney(B.SellerOrderFor(|b.orders|, g).subtotal))
  {
    hide FormatCentsToMoney, Split;
    NoneRefusedIff(cart, 0);
    forall l | l in rows
      ensures IsPurchasable(l)
    {
      assert l in multiset(cart);
    }
    PurchasableIsAll(rows);
    TotalOfPermutation(rows, cart);
    forall g | g in Split(cart)
      ensures ShowsSubtotal(ViewOf(rows), g.seller, FormatCentsToMoney(B.SellerOrderFor(|b.orders|, g).subtotal))
    {
      var i := MatchingGroup(rows, cart, g);
      assert ViewOf(rows).sellers[i].seller == g.seller;
    }
  }

  lemma MatchingGroup(rows: seq<Line>, cart: seq<Line>, g: Group) returns (i: nat)
    requires multiset(rows) == multiset(cart) && g in Split(cart)
    ensures i < |Split(rows)| && Split(rows)[i].seller == g.seller
    ensures TotalCents(Split(rows)[i].lines) == TotalCents(g.lines)
  {
    hide Split;
    SplitGroupsAreSellers(cart);
    SplitGroupsAreSellers(rows);
    assert g.lines[0] in g.lines && g.lines[0] in cart;
    assert g.lines[0] in multiset(rows);
    SplitCoversSellers(rows, g.lines[0]);
    i :| 0 <= i < |Split(rows)| && Split(rows)[i].seller == g.seller;
    assert Split(rows)[i] in Split(rows);
    var these, those := multiset(OfSeller(rows, g.seller)), multiset(OfSeller(cart, g.seller));
    forall l: Line
      ensures these[l] == those[l]
    {
      FilterOfPermutation(rows, g.seller, l);
      FilterOfPermutation(cart, g.seller, l);
    }
    assert these == those;
    TotalOfPermutation(OfSeller(rows, g.seller), OfSeller(cart, g.seller));
  }
}
