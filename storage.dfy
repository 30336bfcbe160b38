/**
 * `SQLiteStorage` (`src/storage/sqlite_storage.cpp`) as two in-memory tables and the flags
 * that guard them. The database file starts empty; rows keep the order they were inserted in.
 */
module Storage {
  import opened Strings

  /** A row of `trade_groups`; `active` defaults to 1 and nothing in the program clears it. */
  datatype GroupRow = GroupRow(exchangeId: string, symbol: string, spotOrderId: string,
                               futuresOrderId: string, leverage: int, active: bool)

  /** A row of `trades`. */
  datatype TradeRow = TradeRow(symbol: string, rate: real)

  /** The text selected for a row: `exchange_id:symbol:spot_order_id_futures_order_id_leverage`. */
  function FormatGroup(r: GroupRow): string
  {
    r.exchangeId + ":" + r.symbol + ":" + r.spotOrderId + "_" + r.futuresOrderId + "_" + IntToString(r.leverage)
  }

  /** The result of `SELECT … FROM trade_groups WHERE active = 1`, one string per active row. */
  function ActiveGroups(rows: seq<GroupRow>): (groups: seq<string>)
    ensures |groups| <= |rows|
  {
    if |rows| == 0 then []
    else
      var last := rows[|rows| - 1];
      ActiveGroups(rows[..|rows| - 1]) + (if last.active then [FormatGroup(last)] else [])
  }

  /** A row as `storeTradeGroup` inserts it: `active` takes its default. */
  function NewGroup(exchangeId: string, symbol: string, spotOrderId: string, futuresOrderId: string,
                    leverage: int): GroupRow
  {
    GroupRow(exchangeId, symbol, spotOrderId, futuresOrderId, leverage, true)
  }

  /** When every row is active, the query returns every row, each formatted, in table order. */
  lemma {:induction false} ActiveGroupsOfActiveRows(rows: seq<GroupRow>)
    requires forall i :: 0 <= i < |rows| ==> rows[i].active
    ensures |ActiveGroups(rows)| == |rows|
    ensures forall i :: 0 <= i < |rows| ==> ActiveGroups(rows)[i] == FormatGroup(rows[i])
  {
    if |rows| > 0 {
      var init := rows[..|rows| - 1];
      ActiveGroupsOfActiveRows(init);
      assert ActiveGroups(rows) == ActiveGroups(init) + [FormatGroup(rows[|rows| - 1])];
      assert forall i :: 0 <= i < |init| ==> init[i] == rows[i];
    }
  }

  /** Inserting an active row adds its text at the end of the query result. */
  lemma ActiveGroupsSnoc(rows: seq<GroupRow>, r: GroupRow)
    requires r.active
    ensures ActiveGroups(rows + [r]) == ActiveGroups(rows) + [FormatGroup(r)]
  {
    assert (rows + [r])[..|rows|] == rows;
  }

  /**
   * Reading the text back: split on `:`, the first two parts are the exchange and the symbol,
   * as long as neither contains `:`. This is what `closeTradeGroup` relies on.
   */
  lemma FormatGroupSplit(r: GroupRow)
    requires ':' !in r.exchangeId && ':' !in r.symbol
    ensures |Split(FormatGroup(r), ':')| >= 2
    ensures Split(FormatGroup(r), ':')[0] == r.exchangeId
    ensures Split(FormatGroup(r), ':')[1] == r.symbol
  {
    var rest := r.spotOrderId + "_" + r.futuresOrderId + "_" + IntToString(r.leverage);
    assert FormatGroup(r) == r.exchangeId + [':'] + (r.symbol + [':'] + rest);
    SplitAtDelimiter(r.exchangeId, r.symbol + [':'] + rest, ':');
    SplitAtDelimiter(r.symbol, rest, ':');
  }

  /** The symbol occurs in the row's text, right after the exchange and its colon. */
  lemma FormatGroupContainsSymbol(r: GroupRow)
    ensures Contains(FormatGroup(r), r.symbol)
  {
    var i := |r.exchangeId| + 1;
    assert OccursAt(FormatGroup(r), r.symbol, i);
  }

  class SqliteStorage {
    /** `db != nullptr`: `sqlite3_open` succeeded. */
    var hasHandle: bool
    /** `isConnected`: set once both tables exist. */
    var connected: bool
    var tradeGroups: seq<GroupRow>
    var trades: seq<TradeRow>

    /** Rows exist only on a connected database, and every group row is active. */
    ghost predicate Valid()
      reads this
    {
      (connected ==> hasHandle)
      && (!connected ==> tradeGroups == [] && trades == [])
      && (forall i :: 0 <= i < |tradeGroups| ==> tradeGroups[i].active)
    }

    /**
     * The constructor's `initDatabase`: open the file, create `trades`, create `trade_groups`;
     * the first failure returns early, and only when all three succeed is the store connected.
     */
    constructor (openOk: bool, tradesTableOk: bool, groupsTableOk: bool)
      ensures Valid()
      ensures hasHandle == openOk
      ensures connected <==> openOk && tradesTableOk && groupsTableOk
      ensures tradeGroups == [] && trades == []
    {
      hasHandle := openOk;
      connected := false;
      tradeGroups := [];
      trades := [];
      new;
      if !openOk {
        return;
      }
      if !tradesTableOk {
        return;
      }
      if !groupsTableOk {
        return;
      }
      connected := true;
    }

    /** `isConnectionValid`: connected and holding a handle. */
    method IsConnectionValid() returns (valid: bool)
      requires Valid()
      ensures valid <==> connected && hasHandle
      ensures valid <==> connected
    {
      valid := connected && hasHandle;
    }

    /** `storeTradeData`: one row into `trades` when connected; nothing otherwise. */
    method StoreTradeData(symbol: string, rate: real)
      requires Valid()
      modifies this
      ensures Valid()
      ensures trades == if old(connected && hasHandle) then old(trades) + [TradeRow(symbol, rate)] else old(trades)
      ensures tradeGroups == old(tradeGroups)
      ensures connected == old(connected) && hasHandle == old(hasHandle)
    {
      if !connected || !hasHandle {
        return;
      }
      trades := trades + [TradeRow(symbol, rate)];
    }

    /** `storeTradeGroup`: one active row into `trade_groups` when connected; nothing otherwise. */
    method StoreTradeGroup(exchangeId: string, symbol: string, spotOrderId: string,
                           futuresOrderId: string, leverage: int)
      requires Valid()
      modifies this
      ensures Valid()
      ensures tradeGroups == if old(connected && hasHandle)
                             then old(tradeGroups) + [NewGroup(exchangeId, symbol, spotOrderId, futuresOrderId, leverage)]
                             else old(tradeGroups)
      ensures trades == old(trades)
      ensures connected == old(connected) && hasHandle == old(hasHandle)
    {
      if !connected || !hasHandle {
        return;
      }
      tradeGroups := tradeGroups + [NewGroup(exchangeId, symbol, spotOrderId, futuresOrderId, leverage)];
    }

    /**
     * `getActiveTradeGroups`: without a handle the statement cannot be prepared and the result
     * is empty; otherwise every active row, formatted, in table order.
     */
    method GetActiveTradeGroups() returns (groups: seq<string>)
      requires Valid()
      ensures groups == ActiveGroups(tradeGroups)
      ensures |groups| == |tradeGroups|
      ensures forall i :: 0 <= i < |groups| ==> groups[i] == FormatGroup(tradeGroups[i])
    {
      groups := [];
      if hasHandle {
        var k := 0;
        while k < |tradeGroups|
          invariant 0 <= k <= |tradeGroups|
          invariant groups == ActiveGroups(tradeGroups[..k])
        {
          assert tradeGroups[..k + 1][..k] == tradeGroups[..k];
          assert ActiveGroups(tradeGroups[..k + 1]) == ActiveGroups(tradeGroups[..k])
                 + (if tradeGroups[k].active then [FormatGroup(tradeGroups[k])] else []);
          if tradeGroups[k].active {
            groups := groups + [FormatGroup(tradeGroups[k])];
          }
          k := k + 1;
        }
        assert tradeGroups[..k] == tradeGroups;
      }
      ActiveGroupsOfActiveRows(tradeGroups);
    }
  }

  /**
   * The storage test's scenario: after `storeTradeGroup("BYBIT", "BTCUSDT", "SPOT123", "FUT123", 10)`
   * on an empty connected store, the result is non-empty and its first string names "BTCUSDT".
   */
  lemma StoredGroupIsListed()
    ensures |ActiveGroups([NewGroup("BYBIT", "BTCUSDT", "SPOT123", "FUT123", 10)])| == 1
    ensures Contains(ActiveGroups([NewGroup("BYBIT", "BTCUSDT", "SPOT123", "FUT123", 10)])[0], "BTCUSDT")
  {
    var r := NewGroup("BYBIT", "BTCUSDT", "SPOT123", "FUT123", 10);
    ActiveGroupsSnoc([], r);
    assert [] + [r] == [r];
    FormatGroupContainsSymbol(r);
  }
}
