// src/components/Admin/Orders.tsx: the admin order table. The fetched
// orders are filtered by a search text, a status, a payment status and a
// date range, sorted by the chosen key, summarised in counters and a
// revenue total, and exported as CSV text. Orders created from the admin
// screen have their prices converted back to US dollars before sending.
// Clock readings and the date formatter are inputs here.

module AdminOrders {
  import opened Common
  import Seqs
  import Text
  import Currency

  datatype Customer = Customer(firstName: string, lastName: string, email: string, mobile: string)

  datatype OrderItem = OrderItem(product: string, quantity: int, price: real)

  /** An order as the table receives it; `createdAt` in milliseconds. */
  datatype Order = Order(orderNumber: string, customer: Customer, items: seq<OrderItem>,
                         totalAmount: real, status: string, paymentStatus: string, createdAt: int)

  /** The start instants `getDateFilterRange` computes from the clock. */
  datatype DateStarts = DateStarts(today: int, week: int, month: int)

  /** The controls above the table. */
  datatype Criteria = Criteria(searchQuery: string, statusFilter: string, paymentFilter: string,
                               dateFilter: string, sortBy: string)

  /** `getDateFilterRange()`: a start instant for the three known ranges,
      none for 'all' and any other value. */
  function DateRangeStart(dateFilter: string, starts: DateStarts): (r: Option<int>)
    ensures dateFilter == "today" ==> r == Some(starts.today)
    ensures dateFilter == "week" ==> r == Some(starts.week)
    ensures dateFilter == "month" ==> r == Some(starts.month)
    ensures r.None? <==> dateFilter !in ["today", "week", "month"]
  {
    if dateFilter == "today" then Some(starts.today)
    else if dateFilter == "week" then Some(starts.week)
    else if dateFilter == "month" then Some(starts.month)
    else None
  }

  function FullName(c: Customer): string
  {
    c.firstName + " " + c.lastName
  }

  /** `field.toLowerCase().includes(searchQuery.toLowerCase())` */
  predicate FieldMatches(field: string, query: string)
  {
    Text.Contains(Text.ToLower(field), Text.ToLower(query))
  }

  predicate MatchesSearch(o: Order, query: string)
  {
    FieldMatches(o.orderNumber, query) || FieldMatches(FullName(o.customer), query) ||
    FieldMatches(o.customer.email, query) || FieldMatches(o.customer.mobile, query)
  }

  /** The filter callback of `filteredOrders`. */
  predicate Passes(o: Order, c: Criteria, starts: DateStarts)
  {
    && MatchesSearch(o, c.searchQuery)
    && (c.statusFilter == "all" || o.status == c.statusFilter)
    && (c.paymentFilter == "all" || o.paymentStatus == c.paymentFilter)
    && (DateRangeStart(c.dateFilter, starts).None? || o.createdAt >= DateRangeStart(c.dateFilter, starts).value)
  }

  /** An empty search text matches every order. */
  lemma EmptySearchMatchesAll(o: Order)
    ensures MatchesSearch(o, "")
  {
    assert Text.ToLower("") == "";
    Text.ContainsEmpty(Text.ToLower(o.orderNumber));
  }

  /** The comparator, read as "a may stay before b"; an unknown key compares
      every pair as equal. */
  function SortLe(sortBy: string): (Order, Order) -> bool
  {
    if sortBy == "date-asc" then (a: Order, b: Order) => a.createdAt <= b.createdAt
    else if sortBy == "date-desc" then (a: Order, b: Order) => b.createdAt <= a.createdAt
    else if sortBy == "amount-asc" then (a: Order, b: Order) => a.totalAmount <= b.totalAmount
    else if sortBy == "amount-desc" then (a: Order, b: Order) => b.totalAmount <= a.totalAmount
    else (a: Order, b: Order) => true
  }

  lemma SortLeIsTotalPreorder(sortBy: string)
    ensures Seqs.TotalPreorder(SortLe(sortBy))
  {
  }

  /** `filteredOrders` */
  function FilteredOrders(orders: seq<Order>, c: Criteria, starts: DateStarts): (r: seq<Order>)
    ensures multiset(r) == multiset(Seqs.Filter(orders, (o: Order) => Passes(o, c, starts)))
  {
    Seqs.SortBy(Seqs.Filter(orders, (o: Order) => Passes(o, c, starts)), SortLe(c.sortBy))
  }

  /** The table holds exactly the orders that pass, each as often as it was
      fetched, in the chosen order; an unknown sort key keeps the fetched order. */
  lemma FilteredOrdersSpec(orders: seq<Order>, c: Criteria, starts: DateStarts)
    ensures forall o :: o in FilteredOrders(orders, c, starts) <==> o in orders && Passes(o, c, starts)
    ensures Seqs.SortedBy(FilteredOrders(orders, c, starts), SortLe(c.sortBy))
    ensures c.sortBy !in ["date-asc", "date-desc", "amount-asc", "amount-desc"] ==>
              FilteredOrders(orders, c, starts) == Seqs.Filter(orders, (o: Order) => Passes(o, c, starts))
  {
    var p := (o: Order) => Passes(o, c, starts);
    var kept := Seqs.Filter(orders, p);
    forall o | o in orders && Passes(o, c, starts) ensures o in kept {
      Seqs.FilterComplete(orders, p, o);
    }
    forall o ensures o in FilteredOrders(orders, c, starts) <==> o in kept {
      assert o in multiset(FilteredOrders(orders, c, starts)) <==> o in multiset(kept);
    }
    SortLeIsTotalPreorder(c.sortBy);
    Seqs.SortBySorted(kept, SortLe(c.sortBy));
    if c.sortBy !in ["date-asc", "date-desc", "amount-asc", "amount-desc"] {
      Seqs.SortByNeutral(kept, SortLe(c.sortBy));
    }
  }

  /** With the default 'date-desc' key, newer orders come first. */
  lemma DateDescNewestFirst(orders: seq<Order>, c: Criteria, starts: DateStarts, i: int, j: int)
    requires c.sortBy == "date-desc"
    requires 0 <= i < j < |FilteredOrders(orders, c, starts)|
    ensures FilteredOrders(orders, c, starts)[i].createdAt >= FilteredOrders(orders, c, starts)[j].createdAt
  {
    FilteredOrdersSpec(orders, c, starts);
  }

  // ------------------------------------------------------------------ stats

  datatype Stats = Stats(total: nat, pending: nat, processing: nat, shipped: nat, delivered: nat,
                         totalRevenue: real)

  function HasStatus(s: string): Order -> bool
  {
    (o: Order) => o.status == s
  }

  /** `convertPrice(order.totalAmount, 'USD', currency)` */
  function DisplayTotal(currency: string): Order -> real
  {
    (o: Order) => Currency.ConvertPrice(Currency.Number(o.totalAmount), Currency.USD, currency)
  }

  /** `stats` over the filtered orders. */
  function ComputeStats(filtered: seq<Order>, currency: string): (r: Stats)
    ensures r.total == |filtered|
    ensures r.pending == |Seqs.Filter(filtered, HasStatus("pending"))|
    ensures r.delivered == |Seqs.Filter(filtered, HasStatus("delivered"))|
  {
    Seqs.CountIsFilterLength(filtered, HasStatus("pending"));
    Seqs.CountIsFilterLength(filtered, HasStatus("delivered"));
    Stats(|filtered|,
          Seqs.Count(filtered, HasStatus("pending")),
          Seqs.Count(filtered, HasStatus("processing")),
          Seqs.Count(filtered, HasStatus("shipped")),
          Seqs.Count(filtered, HasStatus("delivered")),
          Seqs.Sum(filtered, DisplayTotal(currency)))
  }

  /** Cancelled orders have no counter, so the four counters never exceed the total. */
  lemma {:induction false} StatusCountsBounded(filtered: seq<Order>, currency: string)
    ensures var st := ComputeStats(filtered, currency);
            st.pending + st.processing + st.shipped + st.delivered <= st.total
    decreases |filtered|
  {
    if filtered != [] {
      StatusCountsBounded(filtered[1..], currency);
    }
  }

  /** In US dollars the revenue is the plain sum of the order totals. */
  lemma {:induction false} RevenueInDollars(filtered: seq<Order>)
    ensures ComputeStats(filtered, Currency.USD).totalRevenue == Seqs.Sum(filtered, (o: Order) => o.totalAmount)
    decreases |filtered|
  {
    if filtered != [] {
      RevenueInDollars(filtered[1..]);
    }
  }

  // -------------------------------------------------------------------- CSV

  const Header: seq<string> :=
    ["Order ID", "Date", "Customer", "Email", "Mobile", "Items", "Total", "Status", "Payment Status"]

  /** The nine cells of an order's row. `formatDate` stands for date-fns
      `format(…, 'yyyy-MM-dd HH:mm:ss')`; `format` and `plain` are the
      formatter `formatPrice` delegates to. */
  function RowCells(o: Order, currency: string, formatDate: int -> string,
                    format: (real, string) -> Option<string>, plain: real -> string): (r: seq<string>)
    ensures |r| == |Header|
  {
    [o.orderNumber,
     formatDate(o.createdAt),
     FullName(o.customer),
     o.customer.email,
     o.customer.mobile,
     Text.NatToString(|o.items|),
     Currency.FormatPrice(Currency.Number(DisplayTotal(currency)(o)), currency, format, plain),
     o.status,
     o.paymentStatus]
  }

  function Rows(filtered: seq<Order>, currency: string, formatDate: int -> string,
                format: (real, string) -> Option<string>, plain: real -> string): (r: seq<seq<string>>)
    ensures |r| == |filtered|
    ensures forall k :: 0 <= k < |r| ==> r[k] == RowCells(filtered[k], currency, formatDate, format, plain)
  {
    seq(|filtered|, k requires 0 <= k < |filtered| => RowCells(filtered[k], currency, formatDate, format, plain))
  }

  function Lines(rows: seq<seq<string>>): (r: seq<string>)
    ensures |r| == |rows|
    ensures forall k :: 0 <= k < |r| ==> r[k] == Text.Join(rows[k], ',')
  {
    seq(|rows|, k requires 0 <= k < |rows| => Text.Join(rows[k], ','))
  }

  /** `handleExportOrders`: the CSV text, cells joined by ',' and rows by newlines. */
  function Csv(filtered: seq<Order>, currency: string, formatDate: int -> string,
               format: (real, string) -> Option<string>, plain: real -> string): string
  {
    Text.Join(Lines([Header] + Rows(filtered, currency, formatDate, format, plain)), '\n')
  }

  predicate PlainCell(cell: string)
  {
    ',' !in cell && '\n' !in cell
  }

  lemma HeaderIsPlain()
    ensures forall m :: 0 <= m < |Header| ==> PlainCell(Header[m])
  {
  }

  /** Cells free of both separators come back from the joined text line by
      line and cell by cell. */
  lemma TableReadsBack(table: seq<seq<string>>)
    requires table != [] && forall k :: 0 <= k < |table| ==> table[k] != []
    requires forall k, m :: 0 <= k < |table| && 0 <= m < |table[k]| ==> PlainCell(table[k][m])
    ensures var lines := Text.Split(Text.Join(Lines(table), '\n'), '\n');
            && |lines| == |table|
            && forall k :: 0 <= k < |table| ==> Text.Split(lines[k], ',') == table[k]
  {
    var lines := Lines(table);
    forall k | 0 <= k < |lines| ensures '\n' !in lines[k] && Text.Split(lines[k], ',') == table[k] {
      Text.JoinAvoids(table[k], ',', '\n');
      Text.SplitJoin(table[k], ',');
    }
    Text.SplitJoin(lines, '\n');
  }

  /** Read back line by line and cell by cell, the CSV gives the header and
      then each filtered order's nine cells, in display order, provided no
      cell holds a comma or a newline (the export does no quoting). */
  lemma CsvReadsBack(filtered: seq<Order>, currency: string, formatDate: int -> string,
                     format: (real, string) -> Option<string>, plain: real -> string)
    requires forall k, m :: 0 <= k < |filtered| && 0 <= m < |Header| ==>
               PlainCell(RowCells(filtered[k], currency, formatDate, format, plain)[m])
    ensures var lines := Text.Split(Csv(filtered, currency, formatDate, format, plain), '\n');
            && |lines| == |filtered| + 1
            && Text.Split(lines[0], ',') == Header
            && forall k :: 0 <= k < |filtered| ==>
                 Text.Split(lines[k + 1], ',') == RowCells(filtered[k], currency, formatDate, format, plain)
  {
    var table := [Header] + Rows(filtered, currency, formatDate, format, plain);
    HeaderIsPlain();
    assert forall k, m :: 0 <= k < |table| && 0 <= m < |table[k]| ==> PlainCell(table[k][m]) by {
      forall k, m | 0 <= k < |table| && 0 <= m < |table[k]| ensures PlainCell(table[k][m]) {
        if k > 0 {
          assert table[k] == RowCells(filtered[k - 1], currency, formatDate, format, plain);
        }
      }
    }
    TableReadsBack(table);
    assert forall k :: 0 <= k < |filtered| ==> table[k + 1] == RowCells(filtered[k], currency, formatDate, format, plain);
  }

  /** A row whose cell i holds one comma reads back with that cell in two. */
  lemma {:induction false} CommaCellSplits(cells: seq<string>, i: nat, a: string, b: string)
    requires i < |cells| && cells[i] == a + [','] + b
    requires ',' !in a && ',' !in b
    requires forall m :: 0 <= m < |cells| && m != i ==> ',' !in cells[m]
    ensures Text.Split(Text.Join(cells, ','), ',') == cells[..i] + [a, b] + cells[i + 1..]
    decreases i
  {
    if i == 0 {
      if |cells| == 1 {
        Text.SplitAtSeparator(a, b, ',');
        Text.SplitWithoutSeparator(b, ',');
      } else {
        var rest := Text.Join(cells[1..], ',');
        assert Text.Join(cells, ',') == a + [','] + (b + [','] + rest);
        Text.SplitAtSeparator(a, b + [','] + rest, ',');
        Text.SplitAtSeparator(b, rest, ',');
        Text.SplitJoin(cells[1..], ',');
      }
    } else {
      Text.SplitAtSeparator(cells[0], Text.Join(cells[1..], ','), ',');
      CommaCellSplits(cells[1..], i - 1, a, b);
      assert [cells[0]] + cells[1..][..i - 1] == cells[..i];
      assert cells[1..][i..] == cells[i + 1..];
    }
  }

  /** The export as written does not quote its cells. The en-US currency
      text of a total of a thousand or more carries a thousands separator
      ("$1,234.00"), so that one cell reads back as two and the row as ten
      cells under the nine-column header. */
  lemma CommaInTotalSplitsRow(o: Order, currency: string, formatDate: int -> string,
                              format: (real, string) -> Option<string>, plain: real -> string)
    requires format(DisplayTotal(currency)(o), currency) == Some("$1,234.00")
    requires forall m :: 0 <= m < |Header| && m != 6 ==> PlainCell(RowCells(o, currency, formatDate, format, plain)[m])
    ensures var cells := RowCells(o, currency, formatDate, format, plain);
            && Text.Split(Text.Join(cells, ','), ',') == cells[..6] + ["$1", "234.00"] + cells[7..]
            && |Text.Split(Text.Join(cells, ','), ',')| == |Header| + 1
  {
    var cells := RowCells(o, currency, formatDate, format, plain);
    assert cells[6] == "$1" + [','] + "234.00";
    CommaCellSplits(cells, 6, "$1", "234.00");
  }

  // ------------------------------------------------------- the quoted export

  /** The body of a quoted cell: each double quote doubled. */
  function Escape(cell: string): (r: string)
    ensures forall c :: c in r ==> c in cell || c == '"'
  {
    if cell == [] then [] else (if cell[0] == '"' then "\"\"" else [cell[0]]) + Escape(cell[1..])
  }

  /** A cell as section 2 of RFC 4180 writes one that may hold a comma: in
      double quotes, with the quotes inside doubled. */
  function Quote(cell: string): string
  {
    "\"" + Escape(cell) + "\""
  }

  function QuotedLine(cells: seq<string>): string
  {
    Text.Join(seq(|cells|, k requires 0 <= k < |cells| => Quote(cells[k])), ',')
  }

  /** The export with every cell quoted. */
  function CsvQuoted(filtered: seq<Order>, currency: string, formatDate: int -> string,
                     format: (real, string) -> Option<string>, plain: real -> string): string
  {
    Text.Join(QuotedLines([Header] + Rows(filtered, currency, formatDate, format, plain)), '\n')
  }

  function QuotedLines(rows: seq<seq<string>>): (r: seq<string>)
    ensures |r| == |rows|
    ensures forall k :: 0 <= k < |r| ==> r[k] == QuotedLine(rows[k])
  {
    seq(|rows|, k requires 0 <= k < |rows| => QuotedLine(rows[k]))
  }

  /** Reads a quoted cell's body, the opening quote already consumed: the
      cell, and what follows its closing quote. */
  function ReadQuoted(s: string): (r: (string, string))
    ensures |r.1| <= |s|
    decreases |s|
  {
    if s == [] then ([], [])
    else if s[0] == '"' then
      if |s| >= 2 && s[1] == '"' then
        var (cell, rest) := ReadQuoted(s[2..]);
        (['"'] + cell, rest)
      else ([], s[1..])
    else
      var (cell, rest) := ReadQuoted(s[1..]);
      ([s[0]] + cell, rest)
  }

  /** Reads a line of quoted cells separated by commas. */
  function ReadCells(s: string): seq<string>
    decreases |s|
  {
    if s == [] || s[0] != '"' then []
    else
      var (cell, rest) := ReadQuoted(s[1..]);
      if rest != [] && rest[0] == ',' then [cell] + ReadCells(rest[1..]) else [cell]
  }

  lemma {:induction false} ReadQuotedEscape(cell: string, t: string)
    requires t == [] || t[0] == ','
    ensures ReadQuoted(Escape(cell) + "\"" + t) == (cell, t)
    decreases |cell|
  {
    var s := Escape(cell) + "\"" + t;
    if cell == [] {
      assert s == "\"" + t;
    } else if cell[0] == '"' {
      assert s[..2] == "\"\"" && s[2..] == Escape(cell[1..]) + "\"" + t;
      ReadQuotedEscape(cell[1..], t);
      assert ['"'] + cell[1..] == cell;
    } else {
      assert s[0] == cell[0] && s[1..] == Escape(cell[1..]) + "\"" + t;
      ReadQuotedEscape(cell[1..], t);
      assert [cell[0]] + cell[1..] == cell;
    }
  }

  /** Reading a quoted line gives its cells back, whatever they hold. */
  lemma {:induction false} ReadQuotedLine(cells: seq<string>)
    requires cells != []
    ensures ReadCells(QuotedLine(cells)) == cells
    decreases |cells|
  {
    var q := seq(|cells|, k requires 0 <= k < |cells| => Quote(cells[k]));
    if |cells| == 1 {
      ReadQuotedEscape(cells[0], []);
      assert QuotedLine(cells) == "\"" + (Escape(cells[0]) + "\"" + []);
    } else {
      var tail := QuotedLine(cells[1..]);
      assert q[1..] == seq(|cells[1..]|, k requires 0 <= k < |cells[1..]| => Quote(cells[1..][k]));
      assert QuotedLine(cells) == "\"" + (Escape(cells[0]) + "\"" + ([','] + tail));
      ReadQuotedEscape(cells[0], [','] + tail);
      ReadQuotedLine(cells[1..]);
      assert [cells[0]] + cells[1..] == cells;
    }
  }

  /** A quoted line holds a newline only where a cell does. */
  lemma QuotedLineAvoidsNewline(cells: seq<string>)
    requires forall m :: 0 <= m < |cells| ==> '\n' !in cells[m]
    ensures '\n' !in QuotedLine(cells)
  {
    Text.JoinAvoids(seq(|cells|, k requires 0 <= k < |cells| => Quote(cells[k])), ',', '\n');
  }

  /** Cells free of newlines come back from the quoted text line by line
      and cell by cell. */
  lemma QuotedTableReadsBack(table: seq<seq<string>>)
    requires table != [] && forall k :: 0 <= k < |table| ==> table[k] != []
    requires forall k, m :: 0 <= k < |table| && 0 <= m < |table[k]| ==> '\n' !in table[k][m]
    ensures var lines := Text.Split(Text.Join(QuotedLines(table), '\n'), '\n');
            && |lines| == |table|
            && forall k :: 0 <= k < |table| ==> ReadCells(lines[k]) == table[k]
  {
    var lines := QuotedLines(table);
    forall k | 0 <= k < |lines| ensures '\n' !in lines[k] && ReadCells(lines[k]) == table[k] {
      QuotedLineAvoidsNewline(table[k]);
      ReadQuotedLine(table[k]);
    }
    Text.SplitJoin(lines, '\n');
  }

  /** With every cell quoted, the export reads back line by line and cell
      by cell for every order, commas included; only a newline inside a
      cell would still break a line. */
  lemma CsvQuotedReadsBack(filtered: seq<Order>, currency: string, formatDate: int -> string,
                           format: (real, string) -> Option<string>, plain: real -> string)
    requires forall k, m :: 0 <= k < |filtered| && 0 <= m < |Header| ==>
               '\n' !in RowCells(filtered[k], currency, formatDate, format, plain)[m]
    ensures var lines := Text.Split(CsvQuoted(filtered, currency, formatDate, format, plain), '\n');
            && |lines| == |filtered| + 1
            && ReadCells(lines[0]) == Header
            && forall k :: 0 <= k < |filtered| ==>
                 ReadCells(lines[k + 1]) == RowCells(filtered[k], currency, formatDate, format, plain)
  {
    var table := [Header] + Rows(filtered, currency, formatDate, format, plain);
    assert forall k, m :: 0 <= k < |table| && 0 <= m < |table[k]| ==> '\n' !in table[k][m] by {
      forall k, m | 0 <= k < |table| && 0 <= m < |table[k]| ensures '\n' !in table[k][m] {
        if k > 0 {
          assert table[k] == RowCells(filtered[k - 1], currency, formatDate, format, plain);
        }
      }
    }
    assert forall k :: 0 <= k < |table| ==> |table[k]| == |Header|;
    QuotedTableReadsBack(table);
    assert forall k :: 0 <= k < |filtered| ==> table[k + 1] == RowCells(filtered[k], currency, formatDate, format, plain);
  }

  // -------------------------------------------------------------- new orders

  /** An item of an order typed in on the admin screen, priced in the display currency. */
  datatype DraftItem = DraftItem(product: string, quantity: int, price: Currency.PriceInput)

  datatype DraftOrder = DraftOrder(items: seq<DraftItem>, totalAmount: Currency.PriceInput)

  /** What `handleCreateOrder` posts: item prices and total converted to US dollars. */
  datatype Posted = Posted(items: seq<OrderItem>, totalAmount: real)

  function ItemToUsd(item: DraftItem, currency: string): OrderItem
  {
    OrderItem(item.product, item.quantity, Currency.ConvertPrice(item.price, currency, Currency.USD))
  }

  function ToUsd(d: DraftOrder, currency: string): (r: Posted)
    ensures |r.items| == |d.items|
    ensures forall k :: 0 <= k < |d.items| ==>
              r.items[k].product == d.items[k].product && r.items[k].quantity == d.items[k].quantity
  {
    Posted(seq(|d.items|, k requires 0 <= k < |d.items| => ItemToUsd(d.items[k], currency)),
           Currency.ConvertPrice(d.totalAmount, currency, Currency.USD))
  }

  /** Converted prices are whole cents within half a cent of the exact dollar
      amount; in dollars they are sent as typed. */
  lemma ToUsdPrices(d: DraftOrder, currency: string, k: int)
    requires 0 <= k < |d.items| && d.items[k].price.Number?
    ensures currency == Currency.USD ==> ToUsd(d, currency).items[k].price == d.items[k].price.value
    ensures currency != Currency.USD && Currency.IsKnown(currency) ==>
              Currency.IsCents(ToUsd(d, currency).items[k].price) &&
              -0.005 <= ToUsd(d, currency).items[k].price
                        - Currency.Exact(d.items[k].price.value, currency, Currency.USD) <= 0.005
  {
  }
}
