/** Reading products from a spreadsheet (src/loader/dataset_loader.py).
    Reading the file is a parameter that yields the table with every cell
    already rendered as text; the empty cells `fillna("")` produces are "". */
module Loader {
  import opened Wrappers
  import opened Text

  /** `ProductInput` (src/schema/input_schema.py). */
  datatype ProductInput = ProductInput(productId: string, imageUrls: seq<string>)

  /** The two readers `load_products` dispatches to. */
  datatype FileKind = Csv | Excel

  /** A table: its column names, and its rows as cell texts in column order. */
  datatype Table = Table(columns: seq<string>, rows: seq<seq<string>>)

  const ProductIdColumn: string := "Product Id"
  const ImageColumnPrefix: string := "Image"

  /** Which reader a path goes to, by its ending; any other ending raises ValueError. */
  function FileKindOf(path: string): (r: Result<FileKind>)
    ensures r == Success(Csv) <==> EndsWith(path, ".csv")
    ensures r == Success(Excel) <==> !EndsWith(path, ".csv") && (EndsWith(path, ".xlsx") || EndsWith(path, ".xls"))
  {
    if EndsWith(path, ".csv") then Success(Csv)
    else if EndsWith(path, ".xlsx") || EndsWith(path, ".xls") then Success(Excel)
    else Failure("Unsupported file format: " + path + ". Only .csv, .xlsx, and .xls are supported.")
  }

  /** The text of the cell in column c (a data frame gives every row a cell per column). */
  function Cell(row: seq<string>, c: nat): string {
    if c < |row| then row[c] else ""
  }

  /** A column whose name starts with "Image" holds an image URL. */
  predicate IsImageColumn(name: string) {
    StartsWith(name, ImageColumnPrefix)
  }

  /** The cleaned, non-empty cells of a row's image columns, in column order. */
  function CollectUrls(columns: seq<string>, row: seq<string>, clean: string -> string): (urls: seq<string>)
    ensures |urls| <= |columns|
  {
    if columns == [] then []
    else
      var c := |columns| - 1;
      var url := clean(Cell(row, c));
      CollectUrls(columns[..c], row, clean) + (if IsImageColumn(columns[c]) && url != [] then [url] else [])
  }

  /** The URLs of a row: its image cells, stripped, the empty ones skipped. */
  function RowUrls(columns: seq<string>, row: seq<string>): seq<string> {
    CollectUrls(columns, row, Strip)
  }

  lemma {:induction false} CollectUrlsMembers(columns: seq<string>, row: seq<string>, clean: string -> string, url: string)
    ensures url in CollectUrls(columns, row, clean) <==>
      url != [] && exists c :: 0 <= c < |columns| && IsImageColumn(columns[c]) && clean(Cell(row, c)) == url
  {
    if columns != [] {
      var n := |columns| - 1;
      var init := columns[..n];
      CollectUrlsMembers(init, row, clean, url);
      assert forall c :: 0 <= c < n ==> init[c] == columns[c];
    }
  }

  /** A URL is collected exactly when some image column holds it, up to surrounding whitespace. */
  lemma RowUrlsMembers(columns: seq<string>, row: seq<string>, url: string)
    ensures url in RowUrls(columns, row) <==>
      url != [] && exists c :: 0 <= c < |columns| && IsImageColumn(columns[c]) && Strip(Cell(row, c)) == url
  {
    CollectUrlsMembers(columns, row, Strip, url);
  }

  /** The index of the first column with the given name. */
  function ColumnIndex(columns: seq<string>, name: string): (r: Option<nat>)
    ensures r.Some? ==> r.value < |columns| && columns[r.value] == name
    ensures r.Some? ==> forall c :: 0 <= c < r.value ==> columns[c] != name
    ensures r.None? ==> name !in columns
  {
    if columns == [] then None
    else if columns[0] == name then Some(0)
    else match ColumnIndex(columns[1..], name)
      case None => None
      case Some(c) => Some(c + 1)
  }

  /** The products of the rows, in row order, skipping rows without a URL;
      `idColumn` is where "Product Id" is. */
  function ProductsWith(rows: seq<seq<string>>, idColumn: nat, urlsOf: seq<string> -> seq<string>): (ps: seq<ProductInput>)
    ensures |ps| <= |rows|
  {
    if rows == [] then []
    else
      var row := rows[|rows| - 1];
      var urls := urlsOf(row);
      ProductsWith(rows[..|rows| - 1], idColumn, urlsOf)
        + (if urls == [] then [] else [ProductInput(Cell(row, idColumn), urls)])
  }

  function ProductsOfRows(columns: seq<string>, rows: seq<seq<string>>, idColumn: nat): seq<ProductInput> {
    ProductsWith(rows, idColumn, row => RowUrls(columns, row))
  }

  lemma {:induction false} ProductsWithAppend(rows: seq<seq<string>>, more: seq<seq<string>>, idColumn: nat, urlsOf: seq<string> -> seq<string>)
    ensures ProductsWith(rows + more, idColumn, urlsOf) == ProductsWith(rows, idColumn, urlsOf) + ProductsWith(more, idColumn, urlsOf)
    decreases |more|
  {
    if more != [] {
      var all := rows + more;
      assert all[..|all| - 1] == rows + more[..|more| - 1];
      ProductsWithAppend(rows, more[..|more| - 1], idColumn, urlsOf);
    } else {
      assert rows + more == rows;
    }
  }

  lemma ProductsWithOne(row: seq<string>, idColumn: nat, urlsOf: seq<string> -> seq<string>)
    ensures ProductsWith([row], idColumn, urlsOf) == if urlsOf(row) == [] then [] else [ProductInput(Cell(row, idColumn), urlsOf(row))]
  {
    assert [row][..0] == [];
  }

  /** Rows are handled one after another: the products of a table are each row's
      product, if it has a URL, in row order, with the id taken from that row. */
  lemma ProductsOfRowsAppend(columns: seq<string>, rows: seq<seq<string>>, row: seq<string>, idColumn: nat)
    ensures ProductsOfRows(columns, rows + [row], idColumn) == ProductsOfRows(columns, rows, idColumn)
      + if RowUrls(columns, row) == [] then [] else [ProductInput(Cell(row, idColumn), RowUrls(columns, row))]
  {
    ProductsWithAppend(rows, [row], idColumn, r => RowUrls(columns, r));
    ProductsWithOne(row, idColumn, r => RowUrls(columns, r));
  }

  /** Every product comes from a row with a URL: its id is that row's "Product Id" cell and its URLs are that row's. */
  lemma {:induction false} ProductsFromRows(rows: seq<seq<string>>, idColumn: nat, urlsOf: seq<string> -> seq<string>)
    ensures forall p :: p in ProductsWith(rows, idColumn, urlsOf) ==>
      p.imageUrls != [] && exists i :: 0 <= i < |rows| && p == ProductInput(Cell(rows[i], idColumn), urlsOf(rows[i]))
  {
    if rows != [] {
      var init := rows[..|rows| - 1];
      ProductsFromRows(init, idColumn, urlsOf);
      assert forall i :: 0 <= i < |init| ==> init[i] == rows[i];
    }
  }

  /** Every row with a URL gives a product. */
  lemma {:induction false} RowsGiveProducts(rows: seq<seq<string>>, idColumn: nat, urlsOf: seq<string> -> seq<string>)
    ensures forall i :: 0 <= i < |rows| && urlsOf(rows[i]) != [] ==>
      ProductInput(Cell(rows[i], idColumn), urlsOf(rows[i])) in ProductsWith(rows, idColumn, urlsOf)
  {
    if rows != [] {
      var init := rows[..|rows| - 1];
      RowsGiveProducts(init, idColumn, urlsOf);
      assert forall i :: 0 <= i < |init| ==> init[i] == rows[i];
    }
  }

  /** The products of a table; a table with rows but no "Product Id" column raises KeyError. */
  function ProductsOf(t: Table): (r: Result<seq<ProductInput>>)
    ensures r.Failure? <==> t.rows != [] && ProductIdColumn !in t.columns
  {
    if t.rows == [] then Success([])
    else match ColumnIndex(t.columns, ProductIdColumn)
      case None => Failure("'Product Id'")
      case Some(c) => Success(ProductsOfRows(t.columns, t.rows, c))
  }

  /** `load_products`: dispatch on the extension, read, then walk the rows. */
  function LoadedProducts(path: string, read: (FileKind, string) -> Result<Table>): (r: Result<seq<ProductInput>>)
    ensures FileKindOf(path).Failure? ==> r == Failure(FileKindOf(path).error)
  {
    match FileKindOf(path)
    case Failure(e) => Failure(e)
    case Success(kind) =>
      match read(kind, path)
      case Failure(e) => Failure(e)
      case Success(t) => ProductsOf(t)
  }

  /** The collecting loop over one row's columns, cleaning each image cell with `clean`. */
  method CollectRowUrls(columns: seq<string>, row: seq<string>, clean: string -> string) returns (urls: seq<string>)
    ensures urls == CollectUrls(columns, row, clean)
  {
    urls := [];
    var c := 0;
    while c < |columns|
      invariant 0 <= c <= |columns|
      invariant urls == CollectUrls(columns[..c], row, clean)
    {
      assert columns[..c + 1][..c] == columns[..c];
      if IsImageColumn(columns[c]) {
        var url := clean(Cell(row, c));
        if url != [] {
          urls := urls + [url];
        }
      }
      c := c + 1;
    }
    assert columns[..c] == columns;
  }

  /** The row loop: each row with a URL yields its product. */
  method CollectProducts(columns: seq<string>, rows: seq<seq<string>>, idColumn: nat) returns (products: seq<ProductInput>)
    ensures products == ProductsOfRows(columns, rows, idColumn)
  {
    products := [];
    var i := 0;
    while i < |rows|
      invariant 0 <= i <= |rows|
      invariant products == ProductsOfRows(columns, rows[..i], idColumn)
    {
      var row := rows[i];
      var productId := Cell(row, idColumn);
      var urls := CollectRowUrls(columns, row, Strip);
      assert urls == RowUrls(columns, row);
      assert rows[..i + 1] == rows[..i] + [row];
      ProductsOfRowsAppend(columns, rows[..i], row, idColumn);
      if urls != [] {
        products := products + [ProductInput(productId, urls)];
      }
      i := i + 1;
    }
    assert rows[..i] == rows;
  }

  /** `load_products`, with the generator's yields collected in order. A
      missing "Product Id" column raises on the first row, before anything is yielded. */
  method LoadProducts(path: string, read: (FileKind, string) -> Result<Table>) returns (r: Result<seq<ProductInput>>)
    ensures r == LoadedProducts(path, read)
  {
    var kind := FileKindOf(path);
    if kind.Failure? {
      return Failure(kind.error);
    }
    var table := read(kind.value, path);
    if table.Failure? {
      return Failure(table.error);
    }
    var t := table.value;
    if t.rows == [] {
      return Success([]);
    }
    var idColumn := ColumnIndex(t.columns, ProductIdColumn);
    if idColumn.None? {
      return Failure("'Product Id'");
    }
    var products := CollectProducts(t.columns, t.rows, idColumn.value);
    r := Success(products);
  }
}
