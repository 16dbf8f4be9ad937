/** The `products` table and the four operations of the product model
    (server/models/productModel.js). Prices are integer cents. */
module ProductModel {
  import opened Common
  import opened Rows

  /** One row of `products`; `image` is the nullable image path. */
  datatype Product = Product(id: nat, name: string, price: int, stock: int, image: Option<string>)

  /** The primary key of `products`. */
  function ProductId(p: Product): int
  {
    p.id
  }

  /** The table as AUTO_INCREMENT keeps it. */
  ghost predicate TableValid(rows: seq<Product>, nextId: nat)
  {
    KeysIncreasing(rows, ProductId, nextId)
  }

  /** `SELECT ... FROM products WHERE id = ?`: the first matching row. */
  function FindProduct(rows: seq<Product>, id: int): Option<Product>
  {
    FindKey(rows, ProductId, id)
  }

  /** JavaScript truthiness of a nullable string: present and not empty. */
  predicate Truthy(s: Option<string>)
  {
    s.Some? && s.value != ""
  }

  /** The row after `UPDATE products SET name = ?, price = ?, stock = ?[, image = ?]`:
      the image column is in the statement only when `imageUrl` is truthy. */
  function UpdatedRow(p: Product, name: string, price: int, stock: int, imageUrl: Option<string>): Product
  {
    Product(p.id, name, price, stock, if Truthy(imageUrl) then imageUrl else p.image)
  }

  /** The table after the UPDATE: every row whose id matches is rewritten. */
  function UpdateRows(rows: seq<Product>, id: int, name: string, price: int, stock: int,
                      imageUrl: Option<string>): (r: seq<Product>)
    ensures |r| == |rows|
    ensures forall k :: 0 <= k < |r| ==> r[k].id == rows[k].id
  {
    if rows == [] then []
    else
      [if rows[0].id == id then UpdatedRow(rows[0], name, price, stock, imageUrl) else rows[0]]
      + UpdateRows(rows[1..], id, name, price, stock, imageUrl)
  }

  /** The table after `DELETE FROM products WHERE id = ?`. */
  function RemoveProduct(rows: seq<Product>, id: int): seq<Product>
  {
    RemoveKey(rows, ProductId, id)
  }

  /** UPDATE rewrites exactly the rows with that id: name, price and stock are set,
      the image is replaced only by a truthy `imageUrl`, and every other row stays. */
  lemma {:induction false} UpdateRowsAt(rows: seq<Product>, id: int, name: string, price: int, stock: int,
                                        imageUrl: Option<string>, k: nat)
    requires k < |rows|
    ensures |UpdateRows(rows, id, name, price, stock, imageUrl)| == |rows|
    ensures rows[k].id != id ==> UpdateRows(rows, id, name, price, stock, imageUrl)[k] == rows[k]
    ensures rows[k].id == id ==>
      var u := UpdateRows(rows, id, name, price, stock, imageUrl)[k];
      && u.id == id && u.name == name && u.price == price && u.stock == stock
      && u.image == (if Truthy(imageUrl) then imageUrl else rows[k].image)
  {
    if k > 0 {
      UpdateRowsAt(rows[1..], id, name, price, stock, imageUrl, k - 1);
    }
  }

  /** An UPDATE whose id matches no row changes nothing (zero affected rows). */
  lemma {:induction false} UpdateAbsentIsNoop(rows: seq<Product>, id: int, name: string, price: int, stock: int,
                                              imageUrl: Option<string>)
    requires FindProduct(rows, id).None?
    ensures UpdateRows(rows, id, name, price, stock, imageUrl) == rows
  {
    if rows != [] {
      assert FindProduct(rows[1..], id).None?;
      UpdateAbsentIsNoop(rows[1..], id, name, price, stock, imageUrl);
    }
  }

  /** UPDATE keeps the table well formed: ids are not touched. */
  lemma UpdateKeepsValid(rows: seq<Product>, nextId: nat, id: int, name: string, price: int, stock: int,
                         imageUrl: Option<string>)
    requires TableValid(rows, nextId)
    ensures TableValid(UpdateRows(rows, id, name, price, stock, imageUrl), nextId)
  {
  }

  /** On a well-formed table DELETE removes the one row with that id and keeps the
      others in order; with no such row it changes nothing. */
  lemma RemoveProductEffect(rows: seq<Product>, nextId: nat, id: int)
    requires TableValid(rows, nextId)
    ensures TableValid(RemoveProduct(rows, id), nextId)
    ensures FindProduct(RemoveProduct(rows, id), id).None?
    ensures FindProduct(rows, id).None? ==> RemoveProduct(rows, id) == rows
    ensures forall k :: 0 <= k < |rows| && rows[k].id == id ==> RemoveProduct(rows, id) == rows[..k] + rows[k + 1..]
  {
    RemoveKeepsIncreasing(rows, ProductId, nextId, ProductId, id);
    var r := RemoveProduct(rows, id);
    forall k | 0 <= k < |r| ensures r[k].id != id {
      RemoveKeyMember(rows, ProductId, id, r[k]);
    }
    if FindProduct(rows, id).None? {
      RemoveKeyNotFound(rows, ProductId, id);
    }
    forall k | 0 <= k < |rows| && rows[k].id == id
      ensures RemoveProduct(rows, id) == rows[..k] + rows[k + 1..]
    {
      RemoveKeyCutsOne(rows, ProductId, nextId, id, k);
    }
  }

  /** The products table, updated in place by the model's methods. */
  class ProductStore {
    var rows: seq<Product>
    var nextId: nat

    ghost predicate Valid()
      reads this
    {
      TableValid(rows, nextId)
    }

    constructor ()
      ensures Valid() && rows == [] && nextId == 1
    {
      rows := [];
      nextId := 1;
    }

    /** `getAll`: every row of the table, each found again by its own id. */
    method GetAll() returns (all: seq<Product>)
      requires Valid()
      ensures all == rows
      ensures forall k :: 0 <= k < |all| ==> FindProduct(rows, all[k].id) == Some(all[k])
    {
      all := rows;
      forall k | 0 <= k < |all|
        ensures FindProduct(rows, all[k].id) == Some(all[k])
      {
        FindOwnKey(rows, ProductId, nextId, k);
      }
    }

    /** `create`: inserts one row under a fresh id and returns that id (`insertId`). */
    method Create(name: string, price: int, stock: int, imageUrl: Option<string>) returns (insertId: nat)
      requires Valid()
      modifies this
      ensures Valid()
      ensures insertId == old(nextId) && nextId == old(nextId) + 1
      ensures FindProduct(old(rows), insertId).None?
      ensures rows == old(rows) + [Product(insertId, name, price, stock, imageUrl)]
    {
      insertId := nextId;
      AppendIncreasing(rows, ProductId, nextId, Product(insertId, name, price, stock, imageUrl));
      rows := rows + [Product(insertId, name, price, stock, imageUrl)];
      nextId := nextId + 1;
    }

    /** `update`: rewrites the row with that id and reports how many rows matched. */
    method Update(id: int, name: string, price: int, stock: int, imageUrl: Option<string>)
      returns (affectedRows: nat)
      requires Valid()
      modifies this
      ensures Valid() && nextId == old(nextId)
      ensures rows == UpdateRows(old(rows), id, name, price, stock, imageUrl)
      ensures affectedRows == (if FindProduct(old(rows), id).Some? then 1 else 0)
    {
      affectedRows := if FindProduct(rows, id).Some? then 1 else 0;
      UpdateKeepsValid(rows, nextId, id, name, price, stock, imageUrl);
      rows := UpdateRows(rows, id, name, price, stock, imageUrl);
    }

    /** `deleteProduct`: removes the row with that id and reports how many rows went. */
    method DeleteProduct(id: int) returns (affectedRows: nat)
      requires Valid()
      modifies this
      ensures Valid() && nextId == old(nextId)
      ensures rows == RemoveProduct(old(rows), id)
      ensures affectedRows == |old(rows)| - |rows|
      ensures affectedRows == 0 <==> FindProduct(old(rows), id).None?
    {
      RemoveProductEffect(rows, nextId, id);
      var kept := RemoveProduct(rows, id);
      if FindProduct(rows, id).Some? {
        var k :| 0 <= k < |rows| && rows[k].id == id;
        assert kept == rows[..k] + rows[k + 1..];
      }
      affectedRows := |rows| - |kept|;
      rows := kept;
    }
  }
}
