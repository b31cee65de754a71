/**
 * `GET /Product`: the listing query left-joins each product with its serial
 * records and reports the number of matching serials as the product's
 * Quantity; the handler then issues one `UPDATE Product SET Quantity = ?
 * WHERE P_ID = ?` per listed product and sends the listing without waiting
 * for those writes, whose failures are only logged.
 */
module ProductListing {
  import opened Values

  datatype Product = Product(pid: string, name: Value, quantity: int, image: Value)

  datatype Serial = Serial(serialNo: string, pid: string, sid: Value, lastUpdated: Value)

  /** One corrective write: the quantity and the P_ID it is matched on. */
  datatype Write = Write(quantity: int, pid: string)

  /** The handler's outcome: 500 when the listing query fails, otherwise the rows sent. */
  datatype Listing =
    | ServerError
    | Listing(rows: seq<Product>, writes: seq<Write>, logged: seq<Write>)

  /** Number of serial records that reference `pid`. */
  function CountFor(serials: seq<Serial>, pid: string): nat
  {
    if |serials| == 0 then 0
    else (if serials[0].pid == pid then 1 else 0) + CountFor(serials[1..], pid)
  }

  function Pids(serials: seq<Serial>): (r: seq<string>)
    ensures |r| == |serials|
    ensures forall i :: 0 <= i < |serials| ==> r[i] == serials[i].pid
  {
    seq(|serials|, i requires 0 <= i < |serials| => serials[i].pid)
  }

  /** The count is the multiplicity of `pid` among the serials' P_IDs. */
  lemma {:induction false} CountForIsMultiplicity(serials: seq<Serial>, pid: string)
    ensures CountFor(serials, pid) == multiset(Pids(serials))[pid]
  {
    if |serials| > 0 {
      CountForIsMultiplicity(serials[1..], pid);
      assert Pids(serials) == [serials[0].pid] + Pids(serials[1..]);
    }
  }

  /** A product no serial references is counted as 0, as the left join gives. */
  lemma {:induction false} CountForZero(serials: seq<Serial>, pid: string)
    ensures CountFor(serials, pid) == 0 <==> forall i :: 0 <= i < |serials| ==> serials[i].pid != pid
  {
    if |serials| > 0 {
      CountForZero(serials[1..], pid);
      assert forall i :: 1 <= i < |serials| ==> serials[i] == serials[1..][i - 1];
    }
  }

  /** The listing rows: every product with its quantity replaced by its live serial count. */
  function Reconcile(products: seq<Product>, serials: seq<Serial>): (rows: seq<Product>)
    ensures |rows| == |products|
    ensures forall i :: 0 <= i < |products| ==>
      rows[i] == products[i].(quantity := CountFor(serials, products[i].pid))
  {
    if |products| == 0 then []
    else [products[0].(quantity := CountFor(serials, products[0].pid))] + Reconcile(products[1..], serials)
  }

  /** One write per row, carrying the row's quantity and P_ID. */
  function Writes(rows: seq<Product>): (w: seq<Write>)
    ensures |w| == |rows|
    ensures forall i :: 0 <= i < |rows| ==> w[i] == Write(rows[i].quantity, rows[i].pid)
  {
    if |rows| == 0 then [] else [Write(rows[0].quantity, rows[0].pid)] + Writes(rows[1..])
  }

  /** The writes whose index is in `failing`, in issue order, starting at index `from`. */
  function FailedFrom(writes: seq<Write>, failing: set<nat>, from: nat): (r: seq<Write>)
    requires from <= |writes|
    ensures |r| <= |writes| - from
    ensures forall w :: w in r ==> w in writes[from..]
    decreases |writes| - from
  {
    if from == |writes| then []
    else (if from in failing then [writes[from]] else []) + FailedFrom(writes, failing, from + 1)
  }

  /**
   * `GET /Product`. `selectFails` is the outcome of the listing query and
   * `failing` the indices of the corrective writes the store rejects.
   */
  function GetProduct(products: seq<Product>, serials: seq<Serial>, selectFails: bool, failing: set<nat>): (r: Listing)
    ensures r.ServerError? <==> selectFails
    ensures r.Listing? ==> r.rows == Reconcile(products, serials)
    ensures r.Listing? ==> |r.writes| == |products|
    ensures r.Listing? ==> forall i :: 0 <= i < |products| ==>
      r.writes[i] == Write(CountFor(serials, products[i].pid), products[i].pid)
    ensures r.Listing? ==> forall w :: w in r.logged ==> w in r.writes
  {
    if selectFails then ServerError
    else
      var rows := Reconcile(products, serials);
      var writes := Writes(rows);
      Listing(rows, writes, FailedFrom(writes, failing, 0))
  }

  /** P_ID is the key of the Product table. */
  predicate UniqueIds(products: seq<Product>)
  {
    forall i, j :: 0 <= i < |products| && 0 <= j < |products| && products[i].pid == products[j].pid ==> i == j
  }

  /** With P_ID a key, exactly one write is matched on each listed product. */
  lemma OneWritePerProduct(products: seq<Product>, serials: seq<Serial>, failing: set<nat>)
    requires UniqueIds(products)
    ensures var r := GetProduct(products, serials, false, failing);
      forall i, j :: 0 <= i < |products| && 0 <= j < |r.writes| ==>
        (r.writes[j].pid == products[i].pid <==> i == j)
  {
  }

  /** `UPDATE Product SET Quantity = ? WHERE P_ID = ?` applied to a table. */
  function ApplyWrite(table: seq<Product>, w: Write): (t: seq<Product>)
    ensures |t| == |table|
    ensures forall i :: 0 <= i < |table| ==>
      t[i] == if table[i].pid == w.pid then table[i].(quantity := w.quantity) else table[i]
  {
    seq(|table|, i requires 0 <= i < |table| =>
      if table[i].pid == w.pid then table[i].(quantity := w.quantity) else table[i])
  }

  /** The table after the first `k` writes, skipping those the store rejects. */
  function Persist(table: seq<Product>, writes: seq<Write>, failing: set<nat>, k: nat): (t: seq<Product>)
    requires k <= |writes|
    ensures |t| == |table|
  {
    if k == 0 then table
    else
      var t := Persist(table, writes, failing, k - 1);
      if k - 1 in failing then t else ApplyWrite(t, writes[k - 1])
  }

  /**
   * After the corrective writes of one listing, each product whose write
   * succeeded stores its live serial count, and each product whose write
   * failed keeps its stored row.
   */
  lemma {:induction false} PersistReconciles(products: seq<Product>, serials: seq<Serial>, failing: set<nat>, k: nat)
    requires UniqueIds(products)
    requires k <= |products|
    ensures var w := Writes(Reconcile(products, serials));
      var t := Persist(products, w, failing, k);
      forall i :: 0 <= i < |products| ==>
        t[i] == if i < k && i !in failing then products[i].(quantity := CountFor(serials, products[i].pid))
                else products[i]
  {
    if k > 0 {
      PersistReconciles(products, serials, failing, k - 1);
      var rows := Reconcile(products, serials);
      var w := Writes(rows);
      var prev := Persist(products, w, failing, k - 1);
      var t := Persist(products, w, failing, k);
      var j := k - 1;
      assert w[j] == Write(CountFor(serials, products[j].pid), products[j].pid);
      if j !in failing {
        assert t == ApplyWrite(prev, w[j]);
        forall i | 0 <= i < |products|
          ensures t[i] == if i < k && i !in failing then products[i].(quantity := CountFor(serials, products[i].pid))
                          else products[i]
        {
          assert prev[i].pid == products[i].pid;
          if i != j {
            assert products[i].pid != products[j].pid;
          }
        }
      } else {
        assert t == prev;
      }
    }
  }

  /**
   * The stored quantities after a listing: reconciled where the write
   * succeeded, unchanged where it failed; with no failure the stored table is
   * exactly the listing that was sent.
   */
  lemma StoredAfterListing(products: seq<Product>, serials: seq<Serial>, failing: set<nat>)
    requires UniqueIds(products)
    ensures var r := GetProduct(products, serials, false, failing);
      var t := Persist(products, r.writes, failing, |r.writes|);
      && (forall i :: 0 <= i < |products| && i !in failing ==> t[i].quantity == CountFor(serials, products[i].pid))
      && (forall i :: 0 <= i < |products| && i in failing ==> t[i] == products[i])
      && (failing == {} ==> t == r.rows)
  {
    PersistReconciles(products, serials, failing, |products|);
  }
}
