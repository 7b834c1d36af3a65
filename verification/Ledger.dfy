/** The episode book of `crates/copytrade-core/src/ledger.rs`: positions, the open
    episode behind each of them, and the closed episodes. An episode's costs and
    realised profit follow every fill that opens, enlarges, reduces or flips it. */
module Ledger {
  import opened Common

  datatype Side = Buy | Sell

  /** What the episode identifier is the hash of. */
  datatype EpisodeId = EpisodeId(asset: Text, decision: Text, cloid: Text, sequence: nat)

  datatype Execution = Execution(
    asset: Text, side: Side, decision: Text, cloid: Text, decidedAt: nat,
    positionBefore: real, filled: real, averagePrice: Option<real>, positionAfter: real,
    fees: real, funding: real, slippage: real)

  datatype OpenEpisode = OpenEpisode(
    id: EpisodeId, asset: Text, openedAt: nat, decision: Text,
    quantity: real, averageEntry: real, entryNotional: real, exitNotional: real, realizedPnl: real,
    fees: real, funding: real, slippage: real)

  datatype ClosedEpisode = ClosedEpisode(
    id: EpisodeId, asset: Text, openedAt: nat, closedAt: nat, decision: Text,
    entryNotional: real, exitNotional: real, realizedPnl: real,
    fees: real, funding: real, slippage: real, netPnl: real)

  datatype Book = Book(
    positions: map<Text, real>, open: map<Text, OpenEpisode>, closed: seq<ClosedEpisode>, nextSequence: nat)

  datatype LedgerError =
    | PositionDivergence
    | MissingFillPrice
    | MissingMarkPrice
    | InvalidLiveEvent

  const EMPTY_BOOK := Book(map[], map[], [], 0)

  function Position(positions: map<Text, real>, asset: Text): real {
    if asset in positions then positions[asset] else 0.0
  }

  function Delta(e: Execution): real {
    match e.side
    case Buy => e.filled
    case Sell => -e.filled
  }

  function Costs(e: Execution): real {
    e.fees + e.funding + e.slippage
  }

  function Product(x: real, y: real): real {
    x * y
  }

  function Ratio(x: real, y: real): real
    requires y != 0.0
  {
    x / y
  }

  // ------------------------------------------------ one episode, step by step

  function WithCosts(o: OpenEpisode, e: Execution, fraction: real): OpenEpisode {
    o.(fees := o.fees + Product(e.fees, fraction),
       funding := o.funding + Product(e.funding, fraction),
       slippage := o.slippage + Product(e.slippage, fraction))
  }

  function Enlarged(o: OpenEpisode, e: Execution, price: real, delta: real): OpenEpisode
    requires delta != 0.0
  {
    var total := Abs(o.quantity) + Abs(delta);
    WithCosts(
      o.(averageEntry := Ratio(Product(Abs(o.quantity), o.averageEntry) + Product(Abs(delta), price), total),
         quantity := o.quantity + delta,
         entryNotional := o.entryNotional + Product(Abs(delta), price)),
      e, 1.0)
  }

  function Reduced(o: OpenEpisode, e: Execution, price: real, closing: real, fraction: real): OpenEpisode {
    var perUnit := if o.quantity >= 0.0 then price - o.averageEntry else o.averageEntry - price;
    WithCosts(
      o.(realizedPnl := o.realizedPnl + Product(perUnit, closing),
         exitNotional := o.exitNotional + Product(price, closing),
         quantity := o.quantity + (if o.quantity >= 0.0 then -closing else closing)),
      e, fraction)
  }

  function Opened(e: Execution, price: real, quantity: real, fraction: real, sequence: nat): OpenEpisode {
    WithCosts(
      OpenEpisode(
        EpisodeId(e.asset, e.decision, e.cloid, sequence), e.asset, e.decidedAt, e.decision,
        quantity, price, Product(Abs(quantity), price), 0.0, 0.0, 0.0, 0.0, 0.0),
      e, fraction)
  }

  function Finished(o: OpenEpisode, closedAt: nat): ClosedEpisode {
    ClosedEpisode(
      o.id, o.asset, o.openedAt, closedAt, o.decision, o.entryNotional, o.exitNotional, o.realizedPnl,
      o.fees, o.funding, o.slippage, o.realizedPnl - o.fees - o.funding - o.slippage)
  }

  // -------------------------------------------------- the book, step by step

  function WithOpen(b: Book, asset: Text, o: OpenEpisode): Book {
    b.(open := b.open[asset := o])
  }

  function WithFinished(b: Book, asset: Text, closedAt: nat): Book
    requires asset in b.open
  {
    b.(open := b.open - {asset}, closed := b.closed + [Finished(b.open[asset], closedAt)])
  }

  function WithNew(b: Book, e: Execution, price: real, quantity: real, fraction: real): Book {
    b.(open := b.open[e.asset := Opened(e, price, quantity, fraction, b.nextSequence)],
        nextSequence := b.nextSequence + 1)
  }

  function Grown(b: Book, e: Execution, price: real): Book
    requires Delta(e) != 0.0
  {
    if e.asset in b.open then WithOpen(b, e.asset, Enlarged(b.open[e.asset], e, price, Delta(e)))
    else WithNew(b, e, price, Delta(e), 1.0)
  }

  /** How much of a fill closes the open quantity. */
  function Closing(o: OpenEpisode, e: Execution): real {
    Min(Abs(Delta(e)), Abs(o.quantity))
  }

  function Shrunk(b: Book, e: Execution, price: real, closedAt: nat): Book
    requires Delta(e) != 0.0 && e.asset in b.open
  {
    var o := b.open[e.asset];
    var less := Reduced(o, e, price, Closing(o, e), Ratio(Closing(o, e), Abs(Delta(e))));
    var reduced := WithOpen(b, e.asset, less);
    if less.quantity == 0.0 then WithFinished(reduced, e.asset, closedAt) else reduced
  }

  function Flipped(b: Book, e: Execution, price: real, closedAt: nat): Book
    requires Delta(e) != 0.0 && e.asset in b.open
  {
    var o := b.open[e.asset];
    var residual := Abs(Delta(e)) - Closing(o, e);
    if residual == 0.0 then Shrunk(b, e, price, closedAt)
    else WithNew(Shrunk(b, e, price, closedAt), e, price,
                 if Delta(e) >= 0.0 then residual else -residual, 1.0 - Ratio(Closing(o, e), Abs(Delta(e))))
  }

  function WithPosition(b: Book, asset: Text, position: real): Book {
    b.(positions := if position == 0.0 then b.positions - {asset} else b.positions[asset := position])
  }

  predicate SameDirection(current: real, delta: real) {
    current == 0.0 || (current >= 0.0) == (delta >= 0.0)
  }

  /** The book after an execution, or why the book refuses it. */
  function Applied(b: Book, e: Execution, closedAt: nat): Result<Book, LedgerError> {
    var current := Position(b.positions, e.asset);
    if current != e.positionBefore then Err(PositionDivergence)
    else if e.filled == 0.0 then if e.positionAfter != current then Err(PositionDivergence) else Ok(b)
    else if e.averagePrice.None? then Err(MissingFillPrice)
    else if current + Delta(e) != e.positionAfter then Err(PositionDivergence)
    else if SameDirection(current, Delta(e)) then
      Ok(WithPosition(Grown(b, e, e.averagePrice.value), e.asset, e.positionAfter))
    else if e.asset !in b.open then Err(PositionDivergence)
    else Ok(WithPosition(Flipped(b, e, e.averagePrice.value, closedAt), e.asset, e.positionAfter))
  }

  function Funded(b: Book, asset: Text, cost: real): Result<Book, LedgerError> {
    if asset !in b.open then Err(PositionDivergence)
    else Ok(WithOpen(b, asset, b.open[asset].(funding := b.open[asset].funding + cost)))
  }

  /** The last closed episode takes over the exchange's gross profit. */
  function Reconciled(b: Book, asset: Text, gross: real): Result<Book, LedgerError> {
    if b.closed == [] || b.closed[|b.closed| - 1].asset != asset then Err(PositionDivergence)
    else
      var last := b.closed[|b.closed| - 1];
      Ok(b.(closed := b.closed[..|b.closed| - 1] +
              [last.(realizedPnl := gross, netPnl := gross - last.fees - last.funding - last.slippage)]))
  }

  // --------------------------------------------------------------- invariants

  /** What `validate` accepts. */
  ghost predicate Agrees(b: Book) {
    && (forall a :: a in b.positions ==> b.positions[a] == if a in b.open then b.open[a].quantity else 0.0)
    && (forall a :: a in b.open ==> a in b.positions && b.positions[a] == b.open[a].quantity)
  }

  /** What an episode took in, less what it gave out, is what it still holds at
      its average entry price. */
  ghost predicate Balanced(o: OpenEpisode) {
    Product(o.averageEntry, o.quantity) ==
      if o.quantity >= 0.0 then o.entryNotional + o.realizedPnl - o.exitNotional
      else -(o.entryNotional - o.realizedPnl - o.exitNotional)
  }

  /** Every open episode is behind a position, is not empty, stands under its
      own asset, and balances. */
  ghost predicate Sound(b: Book) {
    && b.positions.Keys == b.open.Keys
    && forall a :: a in b.open ==>
         && b.positions[a] == b.open[a].quantity && b.open[a].quantity != 0.0
         && b.open[a].asset == a && Balanced(b.open[a])
  }

  lemma SoundAgrees(b: Book)
    requires Sound(b)
    ensures Agrees(b) && forall a :: a in b.positions ==> b.positions[a] != 0.0
  {
  }

  /** Every episode ever opened has its own sequence number. */
  ghost predicate DistinctIds(b: Book) {
    && (forall a :: a in b.open ==> b.open[a].id.sequence < b.nextSequence)
    && (forall c :: c in b.closed ==> c.id.sequence < b.nextSequence)
    && (forall a, c :: a in b.open && c in b.closed ==> b.open[a].id.sequence != c.id.sequence)
    && (forall a, c :: a in b.open && c in b.open && a != c ==> b.open[a].id.sequence != b.open[c].id.sequence)
    && (forall i, j :: 0 <= i < j < |b.closed| ==> b.closed[i].id.sequence != b.closed[j].id.sequence)
  }

  lemma SignedProduct(x: real, y: real)
    ensures Product(x, y) == Product(y, x) == if y >= 0.0 then Product(Abs(y), x) else -Product(Abs(y), x)
    ensures Product(x, Abs(y)) == Product(Abs(y), x)
  {
  }

  lemma BalanceOfEnlarged(o: OpenEpisode, e: Execution, price: real, delta: real)
    requires Balanced(o) && o.quantity != 0.0 && delta != 0.0 && SameDirection(o.quantity, delta)
    ensures Balanced(Enlarged(o, e, price, delta)) && Enlarged(o, e, price, delta).quantity != 0.0
  {
    var total := Abs(o.quantity) + Abs(delta);
    var value := Product(Abs(o.quantity), o.averageEntry) + Product(Abs(delta), price);
    DivideThenMultiply(value, total);
    SignedProduct(Ratio(value, total), o.quantity + delta);
    SignedProduct(o.averageEntry, o.quantity);
    SignedProduct(price, delta);
    hide Product, Ratio;
  }

  lemma BalanceOfReduced(o: OpenEpisode, e: Execution, price: real, closing: real, fraction: real)
    requires Balanced(o) && 0.0 <= closing <= Abs(o.quantity)
    ensures var r := Reduced(o, e, price, closing, fraction);
            r.quantity != 0.0 ==> Balanced(r)
    ensures var r := Reduced(o, e, price, closing, fraction);
            r.quantity == 0.0 ==>
              r.realizedPnl ==
                if o.quantity >= 0.0 then r.exitNotional - r.entryNotional else r.entryNotional - r.exitNotional
  {
  }

  lemma BalanceOfOpened(e: Execution, price: real, quantity: real, fraction: real, sequence: nat)
    ensures Balanced(Opened(e, price, quantity, fraction, sequence))
  {
  }

  // ------------------------------------------------------ what a step conserves

  function OpenCosts(o: OpenEpisode): real {
    o.fees + o.funding + o.slippage
  }

  /** What an open episode carries apart from the market value of its quantity. */
  function Carried(o: OpenEpisode): real {
    o.realizedPnl - Product(o.averageEntry, o.quantity) - OpenCosts(o)
  }

  function NetOf(closed: seq<ClosedEpisode>): real {
    if closed == [] then 0.0 else NetOf(closed[..|closed| - 1]) + closed[|closed| - 1].netPnl
  }

  function CarriedBy(open: map<Text, OpenEpisode>): map<Text, real> {
    map a | a in open :: Carried(open[a])
  }

  ghost function Booked(b: Book): real {
    NetOf(b.closed) + Total(CarriedBy(b.open))
  }

  lemma WholeShare(x: real)
    ensures Product(x, 1.0) == x && Product(x, 0.0) == 0.0
  {
  }

  lemma WholeIsOne(x: real)
    requires x != 0.0
    ensures Ratio(x, x) == 1.0
  {
  }

  lemma TwoShares(x: real, fraction: real)
    ensures Product(x, fraction) + Product(x, 1.0 - fraction) == x
  {
  }

  lemma CarriedByEnlarged(o: OpenEpisode, e: Execution, price: real, delta: real)
    requires Balanced(o) && o.quantity != 0.0 && delta != 0.0 && SameDirection(o.quantity, delta)
    ensures Carried(Enlarged(o, e, price, delta)) == Carried(o) - Product(delta, price) - Costs(e)
  {
  }

  lemma CarriedByReduced(o: OpenEpisode, e: Execution, price: real, closing: real, fraction: real)
    ensures var delta := if o.quantity >= 0.0 then -closing else closing;
            Carried(Reduced(o, e, price, closing, fraction)) ==
                Carried(o) - Product(delta, price) - Product(Costs(e), fraction)
  {
  }

  lemma CarriedByOpened(e: Execution, price: real, quantity: real, fraction: real, sequence: nat)
    ensures Carried(Opened(e, price, quantity, fraction, sequence)) ==
              -Product(quantity, price) - Product(Costs(e), fraction)
  {
  }

  lemma CarriedByOneMore(open: map<Text, OpenEpisode>, asset: Text, o: OpenEpisode)
    ensures Total(CarriedBy(open[asset := o])) ==
              Total(CarriedBy(open)) + Carried(o) - (if asset in open then Carried(open[asset]) else 0.0)
  {
    assert CarriedBy(open[asset := o]) == CarriedBy(open)[asset := Carried(o)];
    TotalInsert(CarriedBy(open), asset, Carried(o));
  }

  lemma CarriedByOneLess(open: map<Text, OpenEpisode>, asset: Text)
    requires asset in open
    ensures Total(CarriedBy(open - {asset})) == Total(CarriedBy(open)) - Carried(open[asset])
  {
    assert CarriedBy(open - {asset}) == CarriedBy(open) - {asset};
    TotalSplit(CarriedBy(open), asset);
  }

  lemma NetOfOneMore(closed: seq<ClosedEpisode>, c: ClosedEpisode)
    ensures NetOf(closed + [c]) == NetOf(closed) + c.netPnl
  {
  }

  /** Closing an episode that holds nothing moves what it carries into its net
      profit. */
  lemma FinishingConserves(b: Book, asset: Text, closedAt: nat)
    requires asset in b.open && b.open[asset].quantity == 0.0
    ensures Booked(WithFinished(b, asset, closedAt)) == Booked(b)
  {
    CarriedByOneLess(b.open, asset);
    NetOfOneMore(b.closed, Finished(b.open[asset], closedAt));
    WholeShare(b.open[asset].averageEntry);
    hide Total, CarriedBy, NetOf, Product;
  }

  lemma OpeningConserves(b: Book, e: Execution, price: real, quantity: real, fraction: real)
    requires e.asset !in b.open
    ensures Booked(WithNew(b, e, price, quantity, fraction)) ==
              Booked(b) - Product(quantity, price) - Product(Costs(e), fraction)
  {
    CarriedByOpened(e, price, quantity, fraction, b.nextSequence);
    hide Total, CarriedBy, NetOf, Product, Carried, Opened;
    CarriedByOneMore(b.open, e.asset, Opened(e, price, quantity, fraction, b.nextSequence));
  }

  lemma GrowingConserves(b: Book, e: Execution, price: real)
    requires Sound(b) && Delta(e) != 0.0 && SameDirection(Position(b.positions, e.asset), Delta(e))
    ensures Booked(Grown(b, e, price)) == Booked(b) - Product(Delta(e), price) - Costs(e)
  {
    if e.asset in b.open {
      CarriedByEnlarged(b.open[e.asset], e, price, Delta(e));
      hide Total, CarriedBy, NetOf, Product, Carried, Enlarged;
      CarriedByOneMore(b.open, e.asset, Enlarged(b.open[e.asset], e, price, Delta(e)));
    } else {
      WholeShare(Costs(e));
      hide Booked, Product;
      OpeningConserves(b, e, price, Delta(e), 1.0);
    }
  }

  lemma ShrinkingConserves(b: Book, e: Execution, price: real, closedAt: nat)
    requires Delta(e) != 0.0 && e.asset in b.open
    ensures var o := b.open[e.asset];
            Booked(Shrunk(b, e, price, closedAt)) ==
              Booked(b) - Product(if o.quantity >= 0.0 then -Closing(o, e) else Closing(o, e), price)
                - Product(Costs(e), Ratio(Closing(o, e), Abs(Delta(e))))
  {
    var o := b.open[e.asset];
    var fraction := Ratio(Closing(o, e), Abs(Delta(e)));
    hide Product, Ratio;
    CarriedByReduced(o, e, price, Closing(o, e), fraction);
    hide Total, CarriedBy, NetOf, Carried, Reduced, Closing;
    var less := Reduced(o, e, price, Closing(o, e), fraction);
    CarriedByOneMore(b.open, e.asset, less);
    if less.quantity == 0.0 { FinishingConserves(WithOpen(b, e.asset, less), e.asset, closedAt); }
  }

  lemma SplitFill(delta: real, price: real, closing: real)
    ensures delta >= 0.0 ==> Product(delta, price) == Product(closing, price) + Product(delta - closing, price)
    ensures delta < 0.0 ==> Product(delta, price) == Product(-closing, price) + Product(-(-delta - closing), price)
  {
  }

  lemma OverfillCloses(b: Book, e: Execution, price: real, closedAt: nat)
    requires Delta(e) != 0.0 && e.asset in b.open && Closing(b.open[e.asset], e) != Abs(Delta(e))
    ensures e.asset !in Shrunk(b, e, price, closedAt).open
  {
  }

  lemma FlippingConserves(b: Book, e: Execution, price: real, closedAt: nat)
    requires Sound(b) && Delta(e) != 0.0 && e.asset in b.open && !SameDirection(b.positions[e.asset], Delta(e))
    ensures Booked(Flipped(b, e, price, closedAt)) == Booked(b) - Product(Delta(e), price) - Costs(e)
  {
    hide Product, Ratio, Booked, Shrunk, Balanced, Costs;
    var o := b.open[e.asset];
    var closing := Closing(o, e);
    var residual := Abs(Delta(e)) - closing;
    var fraction := Ratio(closing, Abs(Delta(e)));
    ShrinkingConserves(b, e, price, closedAt);
    SplitFill(Delta(e), price, closing);
    if residual == 0.0 {
      WholeIsOne(Abs(Delta(e)));
      WholeShare(Costs(e));
    } else {
      TwoShares(Costs(e), fraction);
      OverfillCloses(b, e, price, closedAt);
      OpeningConserves(
        Shrunk(b, e, price, closedAt), e, price, if Delta(e) >= 0.0 then residual else -residual, 1.0 - fraction);
    }
  }

  /** What an accepted execution pays out, with its costs. */
  function CashFlow(e: Execution): real {
    if e.filled == 0.0 || e.averagePrice.None? then 0.0
    else -Product(Delta(e), e.averagePrice.value) - Costs(e)
  }

  lemma ApplyingConserves(b: Book, e: Execution, closedAt: nat)
    requires Sound(b) && Applied(b, e, closedAt).Ok?
    ensures Booked(Applied(b, e, closedAt).value) == Booked(b) + CashFlow(e)
  {
    hide Grown, Flipped, Product, Total, CarriedBy, NetOf;
    if e.filled != 0.0 {
      var price := e.averagePrice.value;
      if SameDirection(Position(b.positions, e.asset), Delta(e)) {
        GrowingConserves(b, e, price);
      } else {
        FlippingConserves(b, e, price, closedAt);
      }
    }
  }

  lemma FundingConserves(b: Book, asset: Text, cost: real)
    requires asset in b.open
    ensures Booked(Funded(b, asset, cost).value) == Booked(b) - cost
  {
    hide Total, CarriedBy, NetOf, Product;
    CarriedByOneMore(b.open, asset, b.open[asset].(funding := b.open[asset].funding + cost));
  }

  // ------------------------------------------------------- soundness is kept

  lemma GrowingKeepsSound(b: Book, e: Execution, price: real)
    requires Sound(b) && Delta(e) != 0.0 && SameDirection(Position(b.positions, e.asset), Delta(e))
    ensures Sound(WithPosition(Grown(b, e, price), e.asset, Position(b.positions, e.asset) + Delta(e)))
  {
    hide Balanced, Product, Ratio;
    if e.asset in b.open {
      BalanceOfEnlarged(b.open[e.asset], e, price, Delta(e));
    } else {
      BalanceOfOpened(e, price, Delta(e), 1.0, b.nextSequence);
    }
  }

  lemma FlippingKeepsSound(b: Book, e: Execution, price: real, closedAt: nat)
    requires Sound(b) && Delta(e) != 0.0 && e.asset in b.open && !SameDirection(b.positions[e.asset], Delta(e))
    ensures Sound(WithPosition(Flipped(b, e, price, closedAt), e.asset, b.positions[e.asset] + Delta(e)))
  {
    hide Product, Ratio, Balanced;
    var o := b.open[e.asset];
    var closing := Closing(o, e);
    var fraction := Ratio(closing, Abs(Delta(e)));
    BalanceOfReduced(o, e, price, closing, fraction);
    var residual := Abs(Delta(e)) - closing;
    if residual != 0.0 {
      BalanceOfOpened(e, price, if Delta(e) >= 0.0 then residual else -residual, 1.0 - fraction, b.nextSequence);
    }
  }

  lemma PositionIsSet(b: Book, asset: Text, position: real)
    ensures Position(WithPosition(b, asset, position).positions, asset) == position
  {
  }

  lemma ApplyingKeepsSound(b: Book, e: Execution, closedAt: nat)
    requires Sound(b) && Applied(b, e, closedAt).Ok?
    ensures Sound(Applied(b, e, closedAt).value)
    ensures Position(Applied(b, e, closedAt).value.positions, e.asset) == e.positionAfter
  {
    hide Grown, Flipped, Sound, WithPosition;
    if e.filled != 0.0 {
      var price := e.averagePrice.value;
      if SameDirection(Position(b.positions, e.asset), Delta(e)) {
        GrowingKeepsSound(b, e, price);
        PositionIsSet(Grown(b, e, price), e.asset, e.positionAfter);
      } else {
        assert e.asset in b.positions;
        FlippingKeepsSound(b, e, price, closedAt);
        PositionIsSet(Flipped(b, e, price, closedAt), e.asset, e.positionAfter);
      }
    }
  }

  lemma NewKeepsIds(b: Book, e: Execution, price: real, quantity: real, fraction: real)
    requires DistinctIds(b)
    ensures DistinctIds(WithNew(b, e, price, quantity, fraction))
  {
  }

  lemma ReplacingKeepsIds(b: Book, asset: Text, o: OpenEpisode)
    requires DistinctIds(b) && asset in b.open && o.id == b.open[asset].id
    ensures DistinctIds(WithOpen(b, asset, o))
  {
  }

  lemma FinishingKeepsIds(b: Book, asset: Text, closedAt: nat)
    requires DistinctIds(b) && asset in b.open
    ensures DistinctIds(WithFinished(b, asset, closedAt))
  {
  }

  lemma ShrinkingKeepsIds(b: Book, e: Execution, price: real, closedAt: nat)
    requires DistinctIds(b) && Delta(e) != 0.0 && e.asset in b.open
    ensures DistinctIds(Shrunk(b, e, price, closedAt))
  {
    hide Product, Ratio, Closing, DistinctIds;
    var o := b.open[e.asset];
    var less := Reduced(o, e, price, Closing(o, e), Ratio(Closing(o, e), Abs(Delta(e))));
    ReplacingKeepsIds(b, e.asset, less);
    if less.quantity == 0.0 { FinishingKeepsIds(WithOpen(b, e.asset, less), e.asset, closedAt); }
  }

  lemma FlippingKeepsIds(b: Book, e: Execution, price: real, closedAt: nat)
    requires DistinctIds(b) && Delta(e) != 0.0 && e.asset in b.open
    ensures DistinctIds(Flipped(b, e, price, closedAt))
  {
    hide Product, Ratio, Closing, DistinctIds, Shrunk, WithNew;
    ShrinkingKeepsIds(b, e, price, closedAt);
    var o := b.open[e.asset];
    var residual := Abs(Delta(e)) - Closing(o, e);
    if residual != 0.0 {
      NewKeepsIds(Shrunk(b, e, price, closedAt), e, price, if Delta(e) >= 0.0 then residual else -residual,
                  1.0 - Ratio(Closing(o, e), Abs(Delta(e))));
    }
  }

  lemma GrowingKeepsIds(b: Book, e: Execution, price: real)
    requires DistinctIds(b) && Delta(e) != 0.0
    ensures DistinctIds(Grown(b, e, price))
  {
    hide Product, Ratio, DistinctIds, WithNew;
    if e.asset in b.open {
      ReplacingKeepsIds(b, e.asset, Enlarged(b.open[e.asset], e, price, Delta(e)));
    } else {
      NewKeepsIds(b, e, price, Delta(e), 1.0);
    }
  }

  lemma PositionsKeepIds(b: Book, asset: Text, position: real)
    requires DistinctIds(b)
    ensures DistinctIds(WithPosition(b, asset, position))
  {
  }

  lemma ApplyingKeepsIds(b: Book, e: Execution, closedAt: nat)
    requires DistinctIds(b) && Applied(b, e, closedAt).Ok?
    ensures DistinctIds(Applied(b, e, closedAt).value)
  {
    hide DistinctIds, Grown, Flipped, WithPosition;
    if e.filled != 0.0 {
      var price := e.averagePrice.value;
      if SameDirection(Position(b.positions, e.asset), Delta(e)) {
        GrowingKeepsIds(b, e, price);
        PositionsKeepIds(Grown(b, e, price), e.asset, e.positionAfter);
      } else {
        FlippingKeepsIds(b, e, price, closedAt);
        PositionsKeepIds(Flipped(b, e, price, closedAt), e.asset, e.positionAfter);
      }
    }
  }

  // -------------------------------------------------------------- whole runs

  datatype Event =
    | Fill(execution: Execution, closedAt: nat)
    | Funding(asset: Text, cost: real)

  function Outcome(b: Book, event: Event): Result<Book, LedgerError> {
    match event
    case Fill(e, closedAt) => Applied(b, e, closedAt)
    case Funding(asset, cost) => Funded(b, asset, cost)
  }

  /** A refused event leaves the book as it is. */
  function After(b: Book, event: Event): Book {
    var r := Outcome(b, event);
    if r.Ok? then r.value else b
  }

  function Run(events: seq<Event>): Book {
    if events == [] then EMPTY_BOOK else After(Run(events[..|events| - 1]), events[|events| - 1])
  }

  /** The cash the accepted events of a run moved, their costs taken off. */
  function CashFlows(events: seq<Event>): real {
    if events == [] then 0.0
    else
      var before, last := Run(events[..|events| - 1]), events[|events| - 1];
      CashFlows(events[..|events| - 1]) +
        if Outcome(before, last).Err? then 0.0
        else match last
             case Fill(e, _) => CashFlow(e)
             case Funding(_, cost) => -cost
  }

  lemma FundingKeepsBalance(o: OpenEpisode, funding: real)
    requires Balanced(o)
    ensures Balanced(o.(funding := funding))
  {
    hide Product;
  }

  lemma FundingKeepsSound(b: Book, asset: Text, cost: real)
    requires Sound(b) && DistinctIds(b) && asset in b.open
    ensures Sound(Funded(b, asset, cost).value) && DistinctIds(Funded(b, asset, cost).value)
  {
    hide Balanced, DistinctIds;
    FundingKeepsBalance(b.open[asset], b.open[asset].funding + cost);
    ReplacingKeepsIds(b, asset, b.open[asset].(funding := b.open[asset].funding + cost));
  }

  /** Through adds, partial closes, flips, funding and refusals: every open
      episode stands behind a non-empty position of its quantity, episodes have
      distinct identifiers, `validate` accepts, and what the book has booked is
      the cash its accepted events moved. */
  lemma {:induction false} EveryRunConserves(events: seq<Event>)
    ensures Sound(Run(events)) && DistinctIds(Run(events)) && Agrees(Run(events))
    ensures Booked(Run(events)) == CashFlows(events)
  {
    if events != [] {
      var before, last := Run(events[..|events| - 1]), events[|events| - 1];
      EveryRunConserves(events[..|events| - 1]);
      hide Run, Sound, DistinctIds, Booked, Applied, Agrees, Funded, CashFlow;
      if Outcome(before, last).Ok? {
        match last
        case Fill(e, closedAt) =>
          ApplyingConserves(before, e, closedAt);
          ApplyingKeepsSound(before, e, closedAt);
          ApplyingKeepsIds(before, e, closedAt);
        case Funding(asset, cost) =>
          FundedWhen(before, asset, cost);
          FundingConserves(before, asset, cost);
          FundingKeepsSound(before, asset, cost);
      }
      RunOneMore(events);
      SoundAgrees(Run(events));
    }
  }

  lemma FundedWhen(b: Book, asset: Text, cost: real)
    ensures Funded(b, asset, cost).Ok? <==> asset in b.open
  {
  }

  lemma RunOneMore(events: seq<Event>)
    requires events != []
    ensures Run(events) == After(Run(events[..|events| - 1]), events[|events| - 1])
  {
  }

  // ------------------------------------------------------------------ equity

  function Movement(o: OpenEpisode, mark: real): real {
    if o.quantity >= 0.0 then mark - o.averageEntry else o.averageEntry - mark
  }

  /** What an open episode adds to the book's equity. */
  function OpenValue(o: OpenEpisode, mark: real): real {
    Product(Movement(o, mark), Abs(o.quantity)) - OpenCosts(o)
  }

  function OpenValues(open: map<Text, OpenEpisode>, marks: map<Text, real>): map<Text, real>
    requires open.Keys <= marks.Keys
  {
    map a | a in open :: OpenValue(open[a], marks[a])
  }

  ghost function EquityOf(b: Book, starting: real, marks: map<Text, real>): real
    requires b.open.Keys <= marks.Keys
  {
    starting + NetOf(b.closed) + Total(OpenValues(b.open, marks))
  }

  function Realized(open: map<Text, OpenEpisode>): map<Text, real> {
    map a | a in open :: open[a].realizedPnl
  }

  function MarkedTo(positions: map<Text, real>, marks: map<Text, real>): map<Text, real>
    requires positions.Keys <= marks.Keys
  {
    map a | a in positions :: Product(marks[a], positions[a])
  }

  lemma OpenValueSplits(o: OpenEpisode, mark: real)
    ensures OpenValue(o, mark) + o.realizedPnl == Carried(o) + Product(mark, o.quantity)
  {
  }

  lemma EquitySplits(b: Book, starting: real, marks: map<Text, real>)
    requires Sound(b) && b.open.Keys <= marks.Keys
    ensures EquityOf(b, starting, marks) + Total(Realized(b.open)) ==
              starting + Booked(b) + Total(MarkedTo(b.positions, marks))
  {
    var values, realized := OpenValues(b.open, marks), Realized(b.open);
    var carried, marked := CarriedBy(b.open), MarkedTo(b.positions, marks);
    var sums := map a | a in b.open :: values[a] + realized[a];
    hide Product, Balanced, OpenValue, Carried;
    forall a | a in b.open ensures sums[a] == carried[a] + marked[a] {
      OpenValueSplits(b.open[a], marks[a]);
    }
    TotalAdd(sums, values, realized);
    TotalAdd(sums, carried, marked);
  }

  /** Mark-to-market conservation: whatever was traded, a book's equity and the
      realised profit of its open episodes are the starting equity, the cash the
      accepted fills moved, and the positions at their marks, less all costs. */
  lemma MarkToMarketIsConserved(events: seq<Event>, starting: real, marks: map<Text, real>)
    requires Run(events).positions.Keys <= marks.Keys
    ensures Run(events).open.Keys <= marks.Keys
    ensures EquityOf(Run(events), starting, marks) + Total(Realized(Run(events).open)) ==
              starting + CashFlows(events) + Total(MarkedTo(Run(events).positions, marks))
  {
    EveryRunConserves(events);
    assert Run(events).positions.Keys == Run(events).open.Keys;
    EquitySplits(Run(events), starting, marks);
  }

  /** Equity on its own leaves that realised profit out: it is conserved exactly
      when what the open episodes have realised adds up to nothing. */
  lemma EquityAloneIsConservedWhen(events: seq<Event>, starting: real, marks: map<Text, real>)
    requires Run(events).positions.Keys <= marks.Keys
    ensures Run(events).open.Keys <= marks.Keys
    ensures EquityOf(Run(events), starting, marks) ==
              starting + CashFlows(events) + Total(MarkedTo(Run(events).positions, marks))
            <==> Total(Realized(Run(events).open)) == 0.0
  {
    hide EquityOf, Run, CashFlows, MarkedTo, Realized;
    MarkToMarketIsConserved(events, starting, marks);
  }

  function BuyTwo(coin: Text): Execution {
    Execution(coin, Buy, [], [], 0, 0.0, 2.0, Some(100.0), 2.0, 0.0, 0.0, 0.0)
  }

  function SellOne(coin: Text): Execution {
    Execution(coin, Sell, [], [], 0, 2.0, 1.0, Some(110.0), 1.0, 0.0, 0.0, 0.0)
  }

  function TwoHeld(coin: Text): OpenEpisode {
    OpenEpisode(EpisodeId(coin, [], [], 0), coin, 0, [], 2.0, 100.0, 200.0, 0.0, 0.0, 0.0, 0.0, 0.0)
  }

  function OneHeld(coin: Text): OpenEpisode {
    OpenEpisode(EpisodeId(coin, [], [], 0), coin, 0, [], 1.0, 100.0, 200.0, 110.0, 10.0, 0.0, 0.0, 0.0)
  }

  function OneEpisode(coin: Text, o: OpenEpisode): Book {
    Book(map[coin := o.quantity], map[coin := o], [], 1)
  }

  function PartlySold(coin: Text): seq<Event> {
    [Fill(BuyTwo(coin), 0), Fill(SellOne(coin), 0)]
  }

  lemma AfterBuyingTwo(coin: Text)
    ensures Applied(EMPTY_BOOK, BuyTwo(coin), 0) == Ok(OneEpisode(coin, TwoHeld(coin)))
    ensures CashFlow(BuyTwo(coin)) == -200.0
  {
    var e := BuyTwo(coin);
    assert Opened(e, 100.0, 2.0, 1.0, 0) == TwoHeld(coin);
    hide Opened;
    assert Grown(EMPTY_BOOK, e, 100.0).open == map[coin := TwoHeld(coin)];
  }

  lemma AfterSellingOne(coin: Text)
    ensures Applied(OneEpisode(coin, TwoHeld(coin)), SellOne(coin), 0) == Ok(OneEpisode(coin, OneHeld(coin)))
    ensures CashFlow(SellOne(coin)) == 110.0
  {
    var b, e := OneEpisode(coin, TwoHeld(coin)), SellOne(coin);
    assert Closing(TwoHeld(coin), e) == 1.0;
    assert Ratio(1.0, 1.0) == 1.0;
    assert Reduced(TwoHeld(coin), e, 110.0, 1.0, 1.0) == OneHeld(coin);
    hide Reduced, Closing, Ratio;
    assert Flipped(b, e, 110.0, 0) == WithOpen(b, coin, OneHeld(coin));
    assert WithOpen(b, coin, OneHeld(coin)).open == map[coin := OneHeld(coin)];
    assert b.positions[coin := 1.0] == map[coin := 1.0];
    hide Flipped;
  }

  lemma CashFlowsOneMore(events: seq<Event>)
    requires events != [] && events[|events| - 1].Fill?
              && Outcome(Run(events[..|events| - 1]), events[|events| - 1]).Ok?
    ensures CashFlows(events) == CashFlows(events[..|events| - 1]) + CashFlow(events[|events| - 1].execution)
  {
    hide Applied, CashFlow;
  }

  lemma PartlySoldRun(coin: Text)
    ensures Run(PartlySold(coin)) == OneEpisode(coin, OneHeld(coin))
    ensures CashFlows(PartlySold(coin)) == -90.0
  {
    hide Applied, CashFlow, OneEpisode, BuyTwo, SellOne, CashFlows;
    AfterBuyingTwo(coin);
    AfterSellingOne(coin);
    var events := PartlySold(coin);
    var first := events[..1];
    assert first == [Fill(BuyTwo(coin), 0)] && first[..0] == [];
    RunOneMore(first);
    CashFlowsOneMore(first);
    NoCashFlows();
    RunOneMore(events);
    CashFlowsOneMore(events);
  }

  lemma NoCashFlows()
    ensures Run([]) == EMPTY_BOOK && CashFlows([]) == 0.0
  {
  }

  /** Two bought at 100, one sold at 110 and the other marked there: equity is up
      by 10 where 20 were made, the 10 already realised being left out. */
  lemma EquityOmitsRealisedProfit(coin: Text, starting: real)
    ensures var b, marks := Run(PartlySold(coin)), map[coin := 110.0];
            && b.closed == [] && b.open.Keys == b.positions.Keys == marks.Keys
            && Total(Realized(b.open)) == 10.0
            && EquityOf(b, starting, marks) == starting + 10.0
            && starting + CashFlows(PartlySold(coin)) + Total(MarkedTo(b.positions, marks)) == starting + 20.0
  {
    PartlySoldRun(coin);
    hide Run, CashFlows, Total, PartlySold;
    var b, marks := OneEpisode(coin, OneHeld(coin)), map[coin := 110.0];
    TotalOfOne(coin, 10.0);
    TotalOfOne(coin, 110.0);
    assert Realized(b.open) == map[coin := 10.0];
    assert OpenValue(OneHeld(coin), 110.0) == 10.0;
    hide OpenValue, OneHeld;
    assert OpenValues(b.open, marks) == map[coin := 10.0];
    assert MarkedTo(b.positions, marks) == map[coin := 110.0];
  }

  /** The position reaches zero, or passes it. */
  predicate Closes(before: real, after: real) {
    (before > 0.0 && after <= 0.0) || (before < 0.0 && after >= 0.0)
  }

  /** A fill that brings its asset's position to zero, or past it, closes the
      episode behind it, whose realised profit is then what it sold for less what
      it bought for. */
  lemma ClosingRealisesTheSpread(b: Book, e: Execution, closedAt: nat)
    requires Sound(b) && Applied(b, e, closedAt).Ok? && e.filled != 0.0
    ensures var after := Applied(b, e, closedAt).value;
            var closes := Closes(e.positionBefore, e.positionAfter);
            && (closes <==> after.closed != b.closed)
            && (closes ==>
                  && |after.closed| == |b.closed| + 1 && after.closed[..|b.closed|] == b.closed
                  && var last := after.closed[|b.closed|];
                     && last.id == b.open[e.asset].id && last.asset == e.asset && last.closedAt == closedAt
                     && last.realizedPnl == (if e.positionBefore > 0.0 then last.exitNotional - last.entryNotional
                                             else last.entryNotional - last.exitNotional)
                     && last.netPnl == last.realizedPnl - last.fees - last.funding - last.slippage)
  {
    hide Product, Ratio, Balanced;
    if e.asset in b.open && !SameDirection(b.positions[e.asset], Delta(e)) {
      var o := b.open[e.asset];
      BalanceOfReduced(o, e, e.averagePrice.value, Closing(o, e), Ratio(Closing(o, e), Abs(Delta(e))));
    }
  }

  lemma SplitCosts(e: Execution, fraction: real)
    ensures Product(Costs(e), fraction) ==
              Product(e.fees, fraction) + Product(e.funding, fraction) + Product(e.slippage, fraction)
  {
  }

  /** A closed episode has cost what it had cost before, and the closing fill's
      costs in proportion to what was held. */
  lemma ClosingCosts(b: Book, e: Execution, closedAt: nat)
    requires Sound(b) && Applied(b, e, closedAt).Ok? && e.filled != 0.0
    requires Closes(e.positionBefore, e.positionAfter)
    ensures e.asset in b.open && |Applied(b, e, closedAt).value.closed| == |b.closed| + 1
    ensures var last := Applied(b, e, closedAt).value.closed[|b.closed|];
            last.fees + last.funding + last.slippage ==
              OpenCosts(b.open[e.asset]) + Product(Costs(e), Ratio(Abs(e.positionBefore), Abs(Delta(e))))
  {
    hide Product, Ratio, Balanced;
    var fraction := Ratio(Abs(e.positionBefore), Abs(Delta(e)));
    SplitCosts(e, fraction);
    assert Closing(b.open[e.asset], e) == Abs(e.positionBefore);
    hide Costs;
  }

  lemma ShareByQuantity(cost: real, part: real, whole: real)
    requires whole != 0.0
    ensures Product(Product(cost, Ratio(part, whole)), whole) == Product(cost, part)
    ensures Product(Product(cost, 1.0 - Ratio(part, whole)), whole) == Product(cost, whole - part)
  {
  }

  /** A flip charges its costs to the two episodes by quantity: the closed one
      pays for what was held, the new one for what is held now. */
  lemma FlipSplitsCostsByQuantity(b: Book, e: Execution, closedAt: nat)
    requires Sound(b) && Applied(b, e, closedAt).Ok? && e.filled != 0.0
    requires (e.positionBefore > 0.0 && e.positionAfter < 0.0) || (e.positionBefore < 0.0 && e.positionAfter > 0.0)
    ensures var after := Applied(b, e, closedAt).value;
            && e.asset in b.open && e.asset in after.open && |after.closed| == |b.closed| + 1
            && var was, last, next := b.open[e.asset], after.closed[|b.closed|], after.open[e.asset];
               && next.quantity == e.positionAfter && next.averageEntry == e.averagePrice.value
               && next.realizedPnl == 0.0
               && Product(last.fees - was.fees, Abs(Delta(e))) == Product(e.fees, Abs(e.positionBefore))
               && Product(last.funding - was.funding, Abs(Delta(e))) == Product(e.funding, Abs(e.positionBefore))
               && Product(last.slippage - was.slippage, Abs(Delta(e))) == Product(e.slippage, Abs(e.positionBefore))
               && Product(next.fees, Abs(Delta(e))) == Product(e.fees, Abs(e.positionAfter))
               && Product(next.funding, Abs(Delta(e))) == Product(e.funding, Abs(e.positionAfter))
               && Product(next.slippage, Abs(Delta(e))) == Product(e.slippage, Abs(e.positionAfter))
  {
    hide Product, Ratio, Balanced;
    var held, delta := Abs(e.positionBefore), Abs(Delta(e));
    assert Closing(b.open[e.asset], e) == held && delta - held == Abs(e.positionAfter);
    ShareByQuantity(e.fees, held, delta);
    ShareByQuantity(e.funding, held, delta);
    ShareByQuantity(e.slippage, held, delta);
    var after := Applied(b, e, closedAt).value;
    var was, last, next := b.open[e.asset], after.closed[|b.closed|], after.open[e.asset];
    assert last.fees == was.fees + Product(e.fees, Ratio(held, delta));
    assert last.funding == was.funding + Product(e.funding, Ratio(held, delta));
    assert last.slippage == was.slippage + Product(e.slippage, Ratio(held, delta));
    assert next.fees == Product(e.fees, 1.0 - Ratio(held, delta));
    assert next.funding == Product(e.funding, 1.0 - Ratio(held, delta));
    assert next.slippage == Product(e.slippage, 1.0 - Ratio(held, delta));
  }

  // --------------------------------------------------------- the mutable book

  lemma NetOfPrefix(closed: seq<ClosedEpisode>, i: nat)
    requires i < |closed|
    ensures NetOf(closed[..i + 1]) == NetOf(closed[..i]) + closed[i].netPnl
  {
    assert closed[..i + 1][..i] == closed[..i];
  }

  lemma OneValueLess(open: map<Text, OpenEpisode>, marks: map<Text, real>, a: Text)
    requires a in open && open.Keys <= marks.Keys
    ensures Total(OpenValues(open, marks)) == OpenValue(open[a], marks[a]) + Total(OpenValues(open - {a}, marks))
  {
    assert OpenValues(open - {a}, marks) == OpenValues(open, marks) - {a};
    TotalSplit(OpenValues(open, marks), a);
  }

  lemma NoValues(marks: map<Text, real>)
    ensures NetOf([]) == 0.0 && Total(OpenValues(map[], marks)) == 0.0
  {
  }

  class EpisodeBook {
    var positions: map<Text, real>
    var open: map<Text, OpenEpisode>
    var closed: seq<ClosedEpisode>
    var nextSequence: nat

    function Contents(): Book
      reads this
    {
      Book(positions, open, closed, nextSequence)
    }

    constructor ()
      ensures Contents() == EMPTY_BOOK
    {
      positions, open, closed, nextSequence := map[], map[], [], 0;
    }

    constructor Clone(other: EpisodeBook)
      ensures Contents() == other.Contents()
    {
      positions, open, closed, nextSequence := other.positions, other.open, other.closed, other.nextSequence;
    }

    method Apply(e: Execution, closedAt: nat) returns (r: Result<(), LedgerError>)
      modifies this
      ensures var outcome := Applied(old(Contents()), e, closedAt);
              && (r.Ok? <==> outcome.Ok?)
              && (r.Err? ==> r.error == outcome.error)
              && Contents() == if outcome.Ok? then outcome.value else old(Contents())
    {
      hide Product, Ratio;
      var current := if e.asset in positions then positions[e.asset] else 0.0;
      if current != e.positionBefore {
        return Err(PositionDivergence);
      }
      if e.filled == 0.0 {
        return if e.positionAfter != current then Err(PositionDivergence) else Ok(());
      }
      if e.averagePrice.None? {
        return Err(MissingFillPrice);
      }
      var price, delta := e.averagePrice.value, Delta(e);
      if current + delta != e.positionAfter {
        return Err(PositionDivergence);
      }
      if current == 0.0 || (current >= 0.0) == (delta >= 0.0) {
        AddSameDirection(e, price, delta);
      } else {
        var closing := CloseOrFlip(e, price, delta, closedAt);
        if closing.Err? {
          return closing;
        }
      }
      if e.positionAfter == 0.0 {
        positions := positions - {e.asset};
      } else {
        positions := positions[e.asset := e.positionAfter];
      }
      r := Ok(());
    }

    method AddSameDirection(e: Execution, price: real, delta: real)
      requires delta == Delta(e) && delta != 0.0
      modifies `open, `nextSequence
      ensures Contents() == Grown(old(Contents()), e, price)
    {
      hide Product, Ratio;
      if e.asset in open {
        var o := open[e.asset];
        var oldQuantity, added := Abs(o.quantity), Abs(delta);
        var total := oldQuantity + added;
        var addedValue := Product(added, price);
        o := o.(averageEntry := Ratio(Product(oldQuantity, o.averageEntry) + addedValue, total));
        o := o.(quantity := o.quantity + delta);
        o := o.(entryNotional := o.entryNotional + addedValue);
        open := open[e.asset := WithCosts(o, e, 1.0)];
      } else {
        OpenNew(e, price, delta, 1.0);
      }
    }

    method CloseOrFlip(e: Execution, price: real, delta: real, closedAt: nat) returns (r: Result<(), LedgerError>)
      requires delta == Delta(e) && delta != 0.0
      modifies `open, `closed, `nextSequence
      ensures e.asset !in old(open) ==> r == Err(PositionDivergence) && Contents() == old(Contents())
      ensures e.asset in old(open) ==> r == Ok(()) && Contents() == Flipped(old(Contents()), e, price, closedAt)
    {
      hide Product, Ratio, Shrunk, WithNew;
      if e.asset !in open {
        return Err(PositionDivergence);
      }
      var fill := Abs(delta);
      var closing := Min(fill, Abs(open[e.asset].quantity));
      var fraction := Ratio(closing, fill);
      Close(e, price, closing, fraction, closedAt);
      var residual := fill - closing;
      if residual != 0.0 {
        OpenNew(e, price, if delta >= 0.0 then residual else -residual, 1.0 - fraction);
      }
      r := Ok(());
    }

    /** The closing part of a fill. */
    method Close(e: Execution, price: real, closing: real, fraction: real, closedAt: nat)
      requires e.asset in open && Delta(e) != 0.0
      requires closing == Closing(open[e.asset], e) && fraction == Ratio(closing, Abs(Delta(e)))
      modifies `open, `closed
      ensures Contents() == Shrunk(old(Contents()), e, price, closedAt)
      ensures var was := old(open)[e.asset];
              closing < Abs(was.quantity) ==>
                && e.asset in open && var now := open[e.asset];
                   && now.averageEntry == was.averageEntry && now.entryNotional == was.entryNotional
                   && now.exitNotional == was.exitNotional + Product(price, closing)
                   && (was.quantity > 0.0 ==>
                         && now.quantity == was.quantity - closing
                         && now.realizedPnl == was.realizedPnl + Product(price - was.averageEntry, closing))
                   && (was.quantity < 0.0 ==>
                         && now.quantity == was.quantity + closing
                         && now.realizedPnl == was.realizedPnl + Product(was.averageEntry - price, closing))
    {
      hide Product, Ratio, Closing, WithFinished;
      var o := open[e.asset];
      var perUnit := if o.quantity >= 0.0 then price - o.averageEntry else o.averageEntry - price;
      o := o.(realizedPnl := o.realizedPnl + Product(perUnit, closing));
      o := o.(exitNotional := o.exitNotional + Product(price, closing));
      o := WithCosts(o, e, fraction);
      o := o.(quantity := o.quantity + if o.quantity >= 0.0 then -closing else closing);
      open := open[e.asset := o];
      if o.quantity == 0.0 {
        FinishEpisode(e.asset, closedAt);
      }
    }

    method OpenNew(e: Execution, price: real, quantity: real, fraction: real)
      modifies `open, `nextSequence
      ensures Contents() == WithNew(old(Contents()), e, price, quantity, fraction)
    {
      hide Product;
      var sequence := nextSequence;
      nextSequence := sequence + 1;
      var o := OpenEpisode(
        EpisodeId(e.asset, e.decision, e.cloid, sequence), e.asset, e.decidedAt, e.decision,
        quantity, price, Product(Abs(quantity), price), 0.0, 0.0, 0.0, 0.0, 0.0);
      open := open[e.asset := WithCosts(o, e, fraction)];
    }

    method FinishEpisode(asset: Text, closedAt: nat)
      requires asset in open
      modifies `open, `closed
      ensures Contents() == WithFinished(old(Contents()), asset, closedAt)
    {
      var o := open[asset];
      open := open - {asset};
      closed := closed + [Finished(o, closedAt)];
    }

    method ApplyFunding(asset: Text, cost: real) returns (r: Result<(), LedgerError>)
      modifies `open
      ensures var outcome := Funded(old(Contents()), asset, cost);
              && r == (if outcome.Ok? then Ok(()) else Err(outcome.error))
              && Contents() == if outcome.Ok? then outcome.value else old(Contents())
    {
      if asset !in open {
        return Err(PositionDivergence);
      }
      open := open[asset := open[asset].(funding := open[asset].funding + cost)];
      r := Ok(());
    }

    method ReconcileLastGross(asset: Text, gross: real) returns (r: Result<(), LedgerError>)
      modifies `closed
      ensures var outcome := Reconciled(old(Contents()), asset, gross);
              && r == (if outcome.Ok? then Ok(()) else Err(outcome.error))
              && Contents() == if outcome.Ok? then outcome.value else old(Contents())
    {
      if closed == [] || closed[|closed| - 1].asset != asset {
        return Err(PositionDivergence);
      }
      var last := closed[|closed| - 1];
      closed := closed[..|closed| - 1] +
        [last.(realizedPnl := gross, netPnl := gross - last.fees - last.funding - last.slippage)];
      r := Ok(());
    }

    method Validate() returns (r: Result<(), LedgerError>)
      ensures r == if Agrees(Contents()) then Ok(()) else Err(PositionDivergence)
    {
      var rest := positions.Keys;
      while rest != {}
        invariant rest <= positions.Keys
        invariant forall a :: a in positions && a !in rest ==>
                  positions[a] == if a in open then open[a].quantity else 0.0
      {
        var a := Least(rest);
        if positions[a] != if a in open then open[a].quantity else 0.0 {
          return Err(PositionDivergence);
        }
        rest := rest - {a};
      }
      rest := open.Keys;
      while rest != {}
        invariant rest <= open.Keys
        invariant forall a :: a in open && a !in rest ==> a in positions && positions[a] == open[a].quantity
      {
        var a := Least(rest);
        if a !in positions || positions[a] != open[a].quantity {
          return Err(PositionDivergence);
        }
        rest := rest - {a};
      }
      r := Ok(());
    }

    method Equity(starting: real, marks: map<Text, real>) returns (r: Result<real, LedgerError>)
      ensures r.Ok? <==> open.Keys <= marks.Keys
      ensures r.Ok? ==> r.value == EquityOf(Contents(), starting, marks)
      ensures r.Err? ==> r.error == MissingMarkPrice
    {
      hide Product, OpenCosts, NetOf, OpenValues, Total, Movement, Abs;
      var equity := starting;
      var i := 0;
      NoValues(marks);
      while i < |closed|
        invariant 0 <= i <= |closed|
        invariant equity == starting + NetOf(closed[..i])
      {
        NetOfPrefix(closed, i);
        equity := equity + closed[i].netPnl;
        i := i + 1;
      }
      assert closed[..i] == closed;
      ghost var complete := open.Keys <= marks.Keys;
      var rest := open;
      while rest != map[]
        invariant rest.Keys <= open.Keys && forall a :: a in rest ==> rest[a] == open[a]
        invariant forall a :: a in open && a !in rest ==> a in marks
        invariant complete ==> equity + Total(OpenValues(rest, marks)) == EquityOf(Contents(), starting, marks)
        decreases |rest|
      {
        var a := Least(rest.Keys);
        if a !in marks {
          return Err(MissingMarkPrice);
        }
        var o := rest[a];
        equity := equity + Product(Movement(o, marks[a]), Abs(o.quantity)) - OpenCosts(o);
        if complete { OneValueLess(rest, marks, a); }
        rest := rest - {a};
      }
      r := Ok(equity);
    }
  }
}
