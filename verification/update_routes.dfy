/**
 * The four PUT handlers `/updateUserAccount`, `/updateProduct`,
 * `/updateOrder` and `/updateSerialNumber` as instances of the guarded-append
 * builder, each with its fixed field order, table and match key.
 */
module UpdateRoutes {
  import opened Values
  import opened Strings
  import opened UpdateBuilder

  /** `[column]` when the field is supplied, otherwise nothing. */
  function Named(column: string, v: Value): seq<string>
  {
    if v == Undefined then [] else [column]
  }

  /** A slot guarded by, and binding, one request field. */
  function FieldSlot(column: string, v: Value): (s: Slot)
    ensures ColumnIf(s) == Named(column, v)
    ensures ValueIf(s) == Given(v)
  {
    Slot(column, v != Undefined, v)
  }

  // ---------------------------------------------------------------- UserAccount

  datatype UserAccountBody = UserAccountBody(username: Value, password: Value, position: Value, id: Value)

  function UserAccountSlots(b: UserAccountBody): seq<Slot>
  {
    [FieldSlot("username", b.username), FieldSlot("password", b.password), FieldSlot("position", b.position)]
  }

  /** `PUT /updateUserAccount`: assigns the supplied fields among username, password, position; matches on `id`. */
  function UpdateUserAccount(b: UserAccountBody): (q: Query)
    ensures q.params == Given(b.username) + Given(b.password) + Given(b.position) + [b.id]
    ensures q.sql == Statement("UserAccount",
      Named("username", b.username) + Named("password", b.password) + Named("position", b.position), "id")
  {
    var slots := UserAccountSlots(b);
    PresentThree(slots[0], slots[1], slots[2]);
    Build("UserAccount", slots, "id", b.id)
  }

  /** The body with no updatable field: the text cuts into `SET` and only the id is bound. */
  lemma EmptyUserAccountUpdate(b: UserAccountBody)
    requires b.username == Undefined && b.password == Undefined && b.position == Undefined
    ensures UpdateUserAccount(b).sql == "UPDATE " + "UserAccount" + " SE WHERE " + "id" + " = ?"
    ensures UpdateUserAccount(b).params == [b.id]
  {
    var cs := Named("username", b.username) + Named("password", b.password) + Named("position", b.position);
    assert cs == [];
    assert Given(b.username) + Given(b.password) + Given(b.position) + [b.id] == [b.id];
  }

  // ---------------------------------------------------------------- Product

  /**
   * The fields of `/updateProduct`; `file` is the stored name of the uploaded
   * image, if a file was uploaded.
   */
  datatype ProductBody = ProductBody(pid: Value, pName: Value, quantity: Value, file: Option<string>)

  /** `req.file ? req.file.filename : null` */
  function ImageOf(b: ProductBody): Value
  {
    if b.file.Some? then Str(b.file.value) else Null
  }

  function ProductSlots(b: ProductBody): seq<Slot>
  {
    var image := ImageOf(b);
    [FieldSlot("P_Name", b.pName), FieldSlot("Quantity", b.quantity), Slot("image", image != Null, image)]
  }

  /** `PUT /updateProduct`: P_Name and Quantity when supplied, image when a file was uploaded; matches on `P_ID`. */
  function UpdateProduct(b: ProductBody): (q: Query)
    ensures q.params == Given(b.pName) + Given(b.quantity)
      + (if b.file.Some? then [Str(b.file.value)] else []) + [b.pid]
    ensures q.sql == Statement("Product",
      Named("P_Name", b.pName) + Named("Quantity", b.quantity)
      + (if b.file.Some? then ["image"] else []), "P_ID")
  {
    var slots := ProductSlots(b);
    PresentThree(slots[0], slots[1], slots[2]);
    Build("Product", slots, "P_ID", b.pid)
  }

  // ---------------------------------------------------------------- Order

  datatype OrderBody = OrderBody(orderId: Value, orderDate: Value, empno: Value, totalQuantity: Value, status: Value)

  /** The slots as written: the Total_Quantity guard pushes the Status value. */
  function OrderSlots(b: OrderBody): seq<Slot>
  {
    [ FieldSlot("Order_date", b.orderDate), FieldSlot("Empno", b.empno),
      Slot("Total_Quantity", b.totalQuantity != Undefined, b.status), FieldSlot("Status", b.status) ]
  }

  /** `PUT /updateOrder` as written; matches on `OrderID`. */
  function UpdateOrder(b: OrderBody): (q: Query)
    ensures q.params == Given(b.orderDate) + Given(b.empno)
      + (if b.totalQuantity != Undefined then [b.status] else []) + Given(b.status) + [b.orderId]
    ensures q.sql == Statement("`Order`",
      Named("Order_date", b.orderDate) + Named("Empno", b.empno)
      + Named("Total_Quantity", b.totalQuantity) + Named("Status", b.status), "OrderID")
  {
    var slots := OrderSlots(b);
    PresentFour(slots[0], slots[1], slots[2], slots[3]);
    Build("`Order`", slots, "OrderID", b.orderId)
  }

  /** The request field an Order column is meant to receive. */
  function OrderField(b: OrderBody, column: string): Value
  {
    if column == "Order_date" then b.orderDate
    else if column == "Empno" then b.empno
    else if column == "Total_Quantity" then b.totalQuantity
    else if column == "Status" then b.status
    else Undefined
  }

  function OrderSlotsFixed(b: OrderBody): seq<Slot>
  {
    [ FieldSlot("Order_date", b.orderDate), FieldSlot("Empno", b.empno),
      FieldSlot("Total_Quantity", b.totalQuantity), FieldSlot("Status", b.status) ]
  }

  /** `PUT /updateOrder` with each column bound to its own field. */
  function UpdateOrderFixed(b: OrderBody): (q: Query)
    ensures q.params == Given(b.orderDate) + Given(b.empno) + Given(b.totalQuantity) + Given(b.status) + [b.orderId]
    ensures q.sql == UpdateOrder(b).sql
  {
    var slots := OrderSlotsFixed(b);
    PresentFour(slots[0], slots[1], slots[2], slots[3]);
    Build("`Order`", slots, "OrderID", b.orderId)
  }

  /** In the corrected order update every placeholder receives the value of its own column. */
  lemma OrderFixedBindsOwnValues(b: OrderBody)
    ensures var q := UpdateOrderFixed(b);
      var cs := Columns(Present(OrderSlotsFixed(b)));
      forall i :: 0 <= i < |cs| ==> q.params[i] == OrderField(b, cs[i])
  {
    OwnValuesBound("`Order`", OrderSlotsFixed(b), "OrderID", b.orderId, column => OrderField(b, column));
  }

  /**
   * As written, whenever Total_Quantity is supplied its placeholder receives
   * the Status value, so a Total_Quantity that differs from Status is never
   * stored.
   */
  lemma OrderTotalQuantityBoundToStatus(b: OrderBody)
    requires b.totalQuantity != Undefined
    ensures var q := UpdateOrder(b);
      var k := |Given(b.orderDate)| + |Given(b.empno)|;
      && k < |q.params|
      && (Named("Order_date", b.orderDate) + Named("Empno", b.empno)
          + Named("Total_Quantity", b.totalQuantity) + Named("Status", b.status))[k] == "Total_Quantity"
      && q.params[k] == b.status
  {
    var q := UpdateOrder(b);
    var head := Given(b.orderDate) + Given(b.empno);
    AppendAssoc(head, [b.status], Given(b.status));
    AppendAssoc(head, [b.status] + Given(b.status), [b.orderId]);
    assert q.params == head + ([b.status] + Given(b.status) + [b.orderId]);
    var cols := Named("Order_date", b.orderDate) + Named("Empno", b.empno);
    assert |cols| == |head|;
    AppendAssoc(cols, ["Total_Quantity"], Named("Status", b.status));
  }

  /**
   * A body carrying only Total_Quantity and Status (say 5 and "Shipped"):
   * both placeholders receive the Status value.
   */
  lemma OrderBindingCounterexample(b: OrderBody)
    requires b.orderDate == Undefined && b.empno == Undefined
    requires b.totalQuantity != Undefined && b.status != Undefined
    ensures UpdateOrder(b).sql == Statement("`Order`", ["Total_Quantity", "Status"], "OrderID")
    ensures UpdateOrder(b).sql
      == "UPDATE " + "`Order`" + " SET " + "Total_Quantity" + " = ?, " + "Status" + " = ? WHERE " + "OrderID" + " = ?"
    ensures UpdateOrder(b).params == [b.status, b.status, b.orderId]
  {
    var q := UpdateOrder(b);
    var cs := ["Total_Quantity", "Status"];
    assert Named("Order_date", b.orderDate) + Named("Empno", b.empno)
      + Named("Total_Quantity", b.totalQuantity) + Named("Status", b.status) == cs;
    assert q.params == [] + [] + [b.status] + [b.status] + [b.orderId];
    TwoColumnStatement("`Order`", "Total_Quantity", "Status", "OrderID");
  }

  /** The text of a two-column update, spelled out. */
  lemma TwoColumnStatement(table: string, c1: string, c2: string, key: string)
    ensures Statement(table, [c1, c2], key)
      == "UPDATE " + table + " SET " + c1 + " = ?, " + c2 + " = ? WHERE " + key + " = ?"
  {
    var a := Assignments([c1, c2]);
    assert a[1..] == [Assignment(c2)];
    assert Join(a, ", ") == Assignment(c1) + ", " + Assignment(c2);
  }

  // ---------------------------------------------------------------- SerialNumber

  datatype SerialBody = SerialBody(serialNo: Value, pid: Value, sid: Value, lastUpdated: Value)

  function SerialSlots(b: SerialBody): seq<Slot>
  {
    [ FieldSlot("Serial_No", b.serialNo), FieldSlot("P_ID", b.pid),
      FieldSlot("S_ID", b.sid), FieldSlot("LastUpdated", b.lastUpdated) ]
  }

  /**
   * `PUT /updateSerialNumber`: matches on `Serial_No`, always with the
   * request's Serial_No value; when that value is supplied it is also the
   * first assigned column, bound to the same value.
   */
  function UpdateSerialNumber(b: SerialBody): (q: Query)
    ensures q.params == Given(b.serialNo) + Given(b.pid) + Given(b.sid) + Given(b.lastUpdated) + [b.serialNo]
    ensures q.sql == Statement("SerialNumber",
      Named("Serial_No", b.serialNo) + Named("P_ID", b.pid) + Named("S_ID", b.sid)
      + Named("LastUpdated", b.lastUpdated), "Serial_No")
  {
    var slots := SerialSlots(b);
    PresentFour(slots[0], slots[1], slots[2], slots[3]);
    Build("SerialNumber", slots, "Serial_No", b.serialNo)
  }

  /**
   * The serial update always matches on the request's Serial_No; when that
   * is supplied it is also the first assigned column and the first parameter.
   */
  lemma SerialKeyFirst(b: SerialBody)
    requires b.serialNo != Undefined
    ensures var q := UpdateSerialNumber(b);
      && q.sql == Statement("SerialNumber",
           ["Serial_No"] + (Named("P_ID", b.pid) + Named("S_ID", b.sid) + Named("LastUpdated", b.lastUpdated)), "Serial_No")
      && "UPDATE " + "SerialNumber" + " SET " + Assignment("Serial_No") <= q.sql
      && q.params[0] == b.serialNo
      && q.params[|q.params| - 1] == b.serialNo
  {
    var rest := Named("P_ID", b.pid) + Named("S_ID", b.sid) + Named("LastUpdated", b.lastUpdated);
    AppendAssoc(["Serial_No"], Named("P_ID", b.pid) + Named("S_ID", b.sid), Named("LastUpdated", b.lastUpdated));
    AppendAssoc(["Serial_No"], Named("P_ID", b.pid), Named("S_ID", b.sid));
    StatementFirstColumn("SerialNumber", "Serial_No", rest, "Serial_No");
  }

  // ---------------------------------------------------------------- placeholder alignment

  /** Each route's text has exactly one `?` per bound parameter. */
  lemma UserAccountAligned(b: UserAccountBody)
    ensures Count(UpdateUserAccount(b).sql, '?') == |UpdateUserAccount(b).params|
  {
    var slots := UserAccountSlots(b);
    NoPlaceholdersThree("UserAccount", slots[0], slots[1], slots[2], "id");
    BuildAligned("UserAccount", slots, "id", b.id);
  }

  lemma ProductAligned(b: ProductBody)
    ensures Count(UpdateProduct(b).sql, '?') == |UpdateProduct(b).params|
  {
    var slots := ProductSlots(b);
    NoPlaceholdersThree("Product", slots[0], slots[1], slots[2], "P_ID");
    BuildAligned("Product", slots, "P_ID", b.pid);
  }

  lemma OrderAligned(b: OrderBody)
    ensures Count(UpdateOrder(b).sql, '?') == |UpdateOrder(b).params|
    ensures Count(UpdateOrderFixed(b).sql, '?') == |UpdateOrderFixed(b).params|
  {
    var slots := OrderSlots(b);
    NoPlaceholdersFour("`Order`", slots[0], slots[1], slots[2], slots[3], "OrderID");
    BuildAligned("`Order`", slots, "OrderID", b.orderId);
    var fixed := OrderSlotsFixed(b);
    NoPlaceholdersFour("`Order`", fixed[0], fixed[1], fixed[2], fixed[3], "OrderID");
    BuildAligned("`Order`", fixed, "OrderID", b.orderId);
  }

  lemma SerialAligned(b: SerialBody)
    ensures Count(UpdateSerialNumber(b).sql, '?') == |UpdateSerialNumber(b).params|
  {
    var slots := SerialSlots(b);
    NoPlaceholdersFour("SerialNumber", slots[0], slots[1], slots[2], slots[3], "Serial_No");
    BuildAligned("SerialNumber", slots, "Serial_No", b.serialNo);
  }
}
