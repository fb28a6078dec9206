/**
 * The inner merge of sales and customers on `cliente_id` (line 25 of
 * `integracion_limpieza_datos.py`): one merged row per (sale, customer)
 * pair with equal identifiers, in sales order and, for one sale, in
 * customers order.  Identifiers are compared with equality, so two
 * missing identifiers match each other, as pandas does.
 */
module Join {
  import opened Wrappers
  import opened Tables

  datatype JoinError = MissingKeyColumn

  /** Lexicographic order on index pairs. */
  predicate PairLt(p: (nat, nat), q: (nat, nat)) {
    p.0 < q.0 || (p.0 == q.0 && p.1 < q.1)
  }

  /**
   * The matching (sale index, customer index) pairs at or after (i, j),
   * in increasing order.
   */
  function PairsFrom(sales: seq<SaleRow>, customers: seq<CustomerRow>, i: nat, j: nat): (ps: seq<(nat, nat)>)
    requires i <= |sales| && j <= |customers|
    ensures forall p :: p in ps ==>
      i <= p.0 < |sales| && p.1 < |customers| && (p.0 == i ==> j <= p.1) &&
      sales[p.0].clienteId == customers[p.1].clienteId
    ensures forall a, b :: 0 <= a < b < |ps| ==> PairLt(ps[a], ps[b])
    decreases |sales| - i, |customers| - j
  {
    if i == |sales| then []
    else if j == |customers| then PairsFrom(sales, customers, i + 1, 0)
    else (if sales[i].clienteId == customers[j].clienteId then [(i, j)] else []) + PairsFrom(sales, customers, i, j + 1)
  }

  function MatchingPairs(sales: seq<SaleRow>, customers: seq<CustomerRow>): (pairs: seq<(nat, nat)>) {
    PairsFrom(sales, customers, 0, 0)
  }

  /** The merged rows: row k combines the sale and the customer of the k-th matching pair. */
  function InnerJoin(sales: seq<SaleRow>, customers: seq<CustomerRow>): (rows: seq<Row>)
    ensures |rows| == |MatchingPairs(sales, customers)|
    ensures forall k :: 0 <= k < |rows| ==>
      var p := MatchingPairs(sales, customers)[k];
      p.0 < |sales| && p.1 < |customers| &&
      sales[p.0].clienteId == customers[p.1].clienteId &&
      rows[k] == Combine(sales[p.0], customers[p.1])
  {
    var ps := MatchingPairs(sales, customers);
    seq(|ps|, k requires 0 <= k < |ps| => Combine(sales[ps[k].0], customers[ps[k].1]))
  }

  lemma {:induction false} PairsFromComplete(sales: seq<SaleRow>, customers: seq<CustomerRow>, i: nat, j: nat, a: nat, b: nat)
    requires i <= |sales| && j <= |customers|
    requires i <= a < |sales| && b < |customers| && (a == i ==> j <= b)
    requires sales[a].clienteId == customers[b].clienteId
    ensures (a, b) in PairsFrom(sales, customers, i, j)
    decreases |sales| - i, |customers| - j
  {
    if j == |customers| {
      PairsFromComplete(sales, customers, i + 1, 0, a, b);
    } else if (a, b) != (i, j) {
      PairsFromComplete(sales, customers, i, j + 1, a, b);
    }
  }

  /**
   * Every matching pair yields exactly one merged row, so a customer
   * identifier that occurs on several customer rows multiplies the sale.
   */
  lemma OnePerMatchingPair(sales: seq<SaleRow>, customers: seq<CustomerRow>, a: nat, b: nat)
    requires a < |sales| && b < |customers| && sales[a].clienteId == customers[b].clienteId
    ensures exists k :: (0 <= k < |MatchingPairs(sales, customers)| && MatchingPairs(sales, customers)[k] == (a, b) &&
      InnerJoin(sales, customers)[k] == Combine(sales[a], customers[b]))
    ensures forall k, k' :: 0 <= k < k' < |MatchingPairs(sales, customers)| ==>
      MatchingPairs(sales, customers)[k] != MatchingPairs(sales, customers)[k']
  {
    var ps := MatchingPairs(sales, customers);
    PairsFromComplete(sales, customers, 0, 0, a, b);
    var k :| 0 <= k < |ps| && ps[k] == (a, b);
    assert InnerJoin(sales, customers)[k] == Combine(sales[a], customers[b]);
  }

  /** A sale whose identifier no customer carries contributes no merged row. */
  lemma UnmatchedSaleDropped(sales: seq<SaleRow>, customers: seq<CustomerRow>, a: nat)
    requires a < |sales| && forall c :: c in customers ==> c.clienteId != sales[a].clienteId
    ensures forall k :: 0 <= k < |MatchingPairs(sales, customers)| ==> MatchingPairs(sales, customers)[k].0 != a
    ensures forall r :: r in InnerJoin(sales, customers) ==> r.clienteId != sales[a].clienteId
  {
  }

  /** A customer whose identifier no sale carries contributes no merged row. */
  lemma UnmatchedCustomerDropped(sales: seq<SaleRow>, customers: seq<CustomerRow>, b: nat)
    requires b < |customers| && forall s :: s in sales ==> s.clienteId != customers[b].clienteId
    ensures forall k :: 0 <= k < |MatchingPairs(sales, customers)| ==> MatchingPairs(sales, customers)[k].1 != b
    ensures forall r :: r in InnerJoin(sales, customers) ==> r.clienteId != customers[b].clienteId
  {
  }

  lemma {:induction false} PairsFromBound(sales: seq<SaleRow>, customers: seq<CustomerRow>, i: nat, j: nat)
    requires i < |sales| && j <= |customers|
    ensures |PairsFrom(sales, customers, i, j)| + j <= (|sales| - i) * |customers|
    decreases |sales| - i, |customers| - j
  {
    if j == |customers| {
      if i + 1 < |sales| {
        PairsFromBound(sales, customers, i + 1, 0);
      }
      assert (|sales| - i) * |customers| == |customers| + (|sales| - i - 1) * |customers|;
    } else {
      PairsFromBound(sales, customers, i, j + 1);
    }
  }

  /** The merge has at most one row per (sale, customer) combination. */
  lemma JoinSizeBound(sales: seq<SaleRow>, customers: seq<CustomerRow>)
    ensures |InnerJoin(sales, customers)| <= |sales| * |customers|
  {
    if |sales| > 0 {
      PairsFromBound(sales, customers, 0, 0);
    }
  }

  /** `pd.merge(sales, customers, on='cliente_id', how='inner')`; fails when either side lacks the key column. */
  function Merge(sales: Table<SaleRow>, customers: Table<CustomerRow>): (r: Result<Table<Row>, JoinError>)
    ensures r.Failure? <==> KEY_COLUMN !in sales.columns || KEY_COLUMN !in customers.columns
    ensures r.Success? ==>
      r.value.columns == sales.columns + customers.columns && r.value.rows == InnerJoin(sales.rows, customers.rows)
  {
    if KEY_COLUMN !in sales.columns || KEY_COLUMN !in customers.columns then Failure(MissingKeyColumn)
    else Success(Table(sales.columns + customers.columns, InnerJoin(sales.rows, customers.rows)))
  }
}
