/**
 * The rows of the two input tables of `integracion_limpieza_datos.py` and of
 * their merge.  A table is its set of column names and its rows in order.
 * `importe` and `fecha_venta` are sales columns and `nombre_cliente` a
 * customers column; a cell whose column the merged table lacks is never
 * looked at.
 */
module Tables {
  import opened Wrappers
  import opened Dates

  const KEY_COLUMN: string := "cliente_id"
  const AMOUNT_COLUMN: string := "importe"
  const NAME_COLUMN: string := "nombre_cliente"
  const DATE_COLUMN: string := "fecha_venta"

  /** The placeholder written into missing customer names. */
  const UNKNOWN_NAME: string := "Desconocido"

  /** A customer identifier; None is a missing identifier. */
  type Key = Option<int>

  /** A row of the sales table; `attrs` holds its other columns. */
  datatype SaleRow = SaleRow(clienteId: Key, importe: Option<real>, fecha: Option<string>, attrs: map<string, string>)

  /** A row of the customers table; `attrs` holds its other columns. */
  datatype CustomerRow = CustomerRow(clienteId: Key, nombre: Option<string>, attrs: map<string, string>)

  /**
   * The sale-date cell changes type during cleaning: raw or formatted text
   * (None is a missing value), or a parsed timestamp (None is "not a time").
   */
  datatype DateCell = Text(text: Option<string>) | Stamp(at: Option<Instant>)

  /** A row of the merged table: the sale's columns followed by the customer's. */
  datatype Row = Row(
    clienteId: Key,
    importe: Option<real>,
    fecha: DateCell,
    saleAttrs: map<string, string>,
    nombre: Option<string>,
    customerAttrs: map<string, string>)

  datatype Table<R> = Table(columns: set<string>, rows: seq<R>)

  /** The sale columns of a merged row whose date is still raw text. */
  function SalePart(r: Row): (sale: SaleRow)
    requires r.fecha.Text?
  {
    SaleRow(r.clienteId, r.importe, r.fecha.text, r.saleAttrs)
  }

  /** The customer columns of a merged row. */
  function CustomerPart(r: Row): (customer: CustomerRow) {
    CustomerRow(r.clienteId, r.nombre, r.customerAttrs)
  }

  /**
   * The merged row built from one sale and one customer: it loses nothing
   * from either side, since the sale and, when the keys agree, the customer
   * can be read back from it.
   */
  function Combine(s: SaleRow, c: CustomerRow): (r: Row)
    ensures r.fecha.Text? && SalePart(r) == s
    ensures s.clienteId == c.clienteId ==> CustomerPart(r) == c
  {
    Row(s.clienteId, s.importe, Text(s.fecha), s.attrs, c.nombre, c.attrs)
  }

  /** Two rows agree on every column that cleaning never rewrites. */
  predicate SamePassThrough(a: Row, b: Row) {
    a.clienteId == b.clienteId && a.saleAttrs == b.saleAttrs && a.customerAttrs == b.customerAttrs
  }
}
