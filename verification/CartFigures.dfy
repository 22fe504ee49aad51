/** What the figures of a cart view stand for, read back from its texts. */
module CartFigures {
  import opened Results
  import opened Money
  import opened CartSplit
  import opened CartViews

  /** An item that shows a row: its product and quantity, its price, and price times quantity. */
  predicate ShowsRow(item: ItemView, l: Line) {
    && l.price.Some? && item.product == l.product && item.quantity == l.quantity
    && ParseMoneyToCents(item.unitPrice) == Ok(l.price.value)
    && ParseMoneyToCents(item.lineTotal) == Ok(l.price.value * l.quantity)
  }

  lemma ItemShowsRow(l: Line)
    requires IsPurchasable(l)
    ensures ShowsRow(ItemViewOf(l), l)
  {
    hide FormatCentsToMoney, ParseMoneyToCents;
    ParseUndoesFormat(l.price.value);
    ParseUndoesFormat(l.price.value * l.quantity);
  }

  lemma {:induction false} KeepsPurchasable(rows: seq<Line>, l: Line)
    requires l in rows && l.published && l.fixedPrice && l.price.Some?
    ensures l in Purchasable(rows)
  {
    if rows[0] != l {
      KeepsPurchasable(rows[1..], l);
    }
  }

  lemma {:induction false} KeepsOfSeller(lines: seq<Line>, l: Line)
    requires l in lines
    ensures l in OfSeller(lines, l.seller)
  {
    if lines[0] != l {
      KeepsOfSeller(lines[1..], l);
    }
  }

  /** Every row that can be bought is shown with its figures, under its own seller. */
  lemma EveryRowIsShown(rows: seq<Line>, l: Line) returns (i: nat, j: nat)
    requires l in rows && l.published && l.fixedPrice && l.price.Some?
    ensures var sellers := ViewOf(rows).sellers;
            && i < |sellers| && sellers[i].seller == l.seller && j < |sellers[i].items|
            && ShowsRow(sellers[i].items[j], l)
  {
    hide Split, FormatCentsToMoney, ParseMoneyToCents, ShowsRow;
    var kept := Purchasable(rows);
    KeepsPurchasable(rows, l);
    SplitCoversSellers(kept, l);
    SplitGroupsAreSellers(kept);
    i :| 0 <= i < |Split(kept)| && Split(kept)[i].seller == l.seller;
    var g := Split(kept)[i];
    assert g in Split(kept) && g.lines == OfSeller(kept, l.seller);
    KeepsOfSeller(kept, l);
    j :| 0 <= j < |g.lines| && g.lines[j] == l;
    ItemShowsRow(l);
  }

  function ShownUnits(items: seq<ItemView>): nat {
    if items == [] then 0 else items[0].quantity + ShownUnits(items[1..])
  }

  function AllShownUnits(sellers: seq<SellerView>): nat {
    if sellers == [] then 0 else ShownUnits(sellers[0].items) + AllShownUnits(sellers[1..])
  }

  lemma {:induction false} UnitsOfItems(lines: seq<Line>)
    ensures ShownUnits(ItemViews(lines)) == Quantity(lines)
  {
    if lines != [] {
      UnitsOfItems(lines[1..]);
      assert ItemViews(lines)[1..] == ItemViews(lines[1..]);
    }
  }

  lemma {:induction false} UnitsOfSellers(groups: seq<Group>)
    ensures AllShownUnits(SellerViews(groups)) == SumQuantities(groups)
  {
    if groups != [] {
      UnitsOfItems(groups[0].lines);
      UnitsOfSellers(groups[1..]);
      assert SellerViews(groups)[1..] == SellerViews(groups[1..]);
    }
  }

  /** The count shown is the number of units shown, not of rows. */
  lemma CountIsShownUnits(rows: seq<Line>)
    ensures ViewOf(rows).itemCount == AllShownUnits(ViewOf(rows).sellers)
  {
    hide Split, FormatCentsToMoney;
    UnitsOfSellers(Split(Purchasable(rows)));
    SplitKeepsQuantity(Purchasable(rows));
  }
}
