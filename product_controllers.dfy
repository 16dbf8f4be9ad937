/** The product HTTP handlers (server/controllers/productControllers.js): the upload
    middleware's checks on the image file, the required-field rule, the `imagePath` the
    model receives, and the handlers themselves, which call the `ProductStore` and pick
    the status of the reply. */
module ProductControllers {
  import opened Common
  import opened ProductModel

  // ---------------------------------------------------------------------------
  // Strings

  /** Whether `pat` occurs in `s` at position `i`. */
  ghost predicate OccursAt(s: string, pat: string, i: int)
  {
    0 <= i && i + |pat| <= |s| && s[i..i + |pat|] == pat
  }

  /** Whether `pat` occurs anywhere in `s`: what an unanchored regular expression of one
      literal alternative tests. */
  function Contains(s: string, pat: string): (b: bool)
    ensures b <==> exists i :: OccursAt(s, pat, i)
  {
    if |pat| <= |s| && s[..|pat|] == pat then
      assert OccursAt(s, pat, 0);
      true
    else if s == [] then
      false
    else
      OccursShift(s, pat);
      Contains(s[1..], pat)
  }

  /** When `pat` does not start `s`, it occurs in `s` exactly when it occurs in its tail. */
  lemma OccursShift(s: string, pat: string)
    requires s != [] && !(|pat| <= |s| && s[..|pat|] == pat)
    ensures (exists i :: OccursAt(s, pat, i)) <==> exists i :: OccursAt(s[1..], pat, i)
  {
    if i :| OccursAt(s[1..], pat, i) {
      assert s[1..][i..i + |pat|] == s[i + 1..i + 1 + |pat|];
      assert OccursAt(s, pat, i + 1);
    }
    if i :| OccursAt(s, pat, i) {
      assert i != 0;
      assert s[1..][i - 1..i - 1 + |pat|] == s[i..i + |pat|];
      assert OccursAt(s[1..], pat, i - 1);
    }
  }

  /** `String.prototype.toLowerCase` on the ASCII letters. */
  function AsciiLower(s: string): (r: string)
    ensures |r| == |s|
    ensures forall k :: 0 <= k < |s| ==>
      r[k] == if 'A' <= s[k] <= 'Z' then (s[k] as int + 32) as char else s[k]
  {
    seq(|s|, k requires 0 <= k < |s| => if 'A' <= s[k] <= 'Z' then (s[k] as int + 32) as char else s[k])
  }

  /** The position of the last '.' in `s`, or -1. */
  function LastDot(s: string): (r: int)
    ensures -1 <= r < |s|
    ensures r >= 0 ==> s[r] == '.'
    ensures forall j :: r < j < |s| ==> s[j] != '.'
  {
    if s == [] then -1
    else if s[|s| - 1] == '.' then |s| - 1
    else LastDot(s[..|s| - 1])
  }

  /** Node's `path.extname` for a base name: from the last '.' to the end; empty when there
      is no '.', when the only '.' starts the name (".png"), and for "..". The extension is
      empty or a '.' followed by no other '.', and it ends the name. */
  function ExtName(name: string): (ext: string)
    ensures |ext| <= |name| && ext == name[|name| - |ext|..]
    ensures ext != "" ==> ext[0] == '.' && forall j :: 0 < j < |ext| ==> ext[j] != '.'
    ensures ext == "" <==> name == ".." || forall j :: 0 < j < |name| ==> name[j] != '.'
  {
    var d := LastDot(name);
    if d <= 0 || name == ".." then ""
    else
      assert forall j :: 0 < j < |name[d..]| ==> name[d..][j] == name[d + j];
      name[d..]
  }

  // ---------------------------------------------------------------------------
  // The upload middleware: `multer({ storage, limits, fileFilter }).single("image")`

  /** A file part of the multipart request. `originalname` is the client's file name as the
      multipart parser reports it, already reduced to its base name. */
  datatype UploadedFile = UploadedFile(fieldname: string, originalname: string, mimetype: string, size: nat)

  /** `limits.fileSize`: 5 MiB. */
  const MaxFileSize: nat := 5 * 1024 * 1024

  /** The test of `/jpeg|jpg|png|gif|webp/` on a string. */
  predicate MatchesImageType(s: string)
  {
    Contains(s, "jpeg") || Contains(s, "jpg") || Contains(s, "png") || Contains(s, "gif") || Contains(s, "webp")
  }

  /** `fileFilter`: the mimetype and the lower-cased extension of the original name must
      both contain one of the five image type names, so an accepted file always has an
      extension after its first character, of at least three more characters. */
  predicate FileFilter(file: UploadedFile): (accepted: bool)
    ensures accepted ==> |ExtName(file.originalname)| >= 4 && |file.mimetype| >= 3
  {
    MatchesImageType(file.mimetype) && MatchesImageType(AsciiLower(ExtName(file.originalname)))
  }

  /** The number a string of decimal digits spells, most significant digit first. */
  function DigitsValue(s: string): nat
    requires forall k :: 0 <= k < |s| ==> '0' <= s[k] <= '9'
  {
    if s == [] then 0
    else DigitsValue(s[..|s| - 1]) * 10 + (s[|s| - 1] as int - '0' as int)
  }

  /** The decimal digits of `n`, as `String(Date.now())` writes them: digits that spell `n`,
      with no leading zero. */
  function Decimal(n: nat): (r: string)
    ensures |r| >= 1
    ensures forall k :: 0 <= k < |r| ==> '0' <= r[k] <= '9'
    ensures DigitsValue(r) == n
    ensures |r| > 1 ==> r[0] != '0'
  {
    var digit := ['0' + (n % 10) as char];
    if n < 10 then digit
    else
      var high := Decimal(n / 10);
      assert (high + digit)[..|high|] == high;
      high + digit
  }

  /** The upload step of a request: no file, the name it was stored under, or the error
      message the middleware rejects the request with. */
  datatype UploadOutcome = NoFile | Stored(filename: string) | UploadError(message: string)

  /** The middleware on one request: a file part without a file name is skipped as if there
      were none; otherwise a file under another field is refused, then the `fileFilter`, then
      the size limit; an accepted file is stored as `<fieldname>_<now><extension>`, `now`
      being `Date.now()`. */
  function Upload(file: Option<UploadedFile>, now: nat): (r: UploadOutcome)
    ensures r.NoFile? <==> file.None? || file.value.originalname == ""
    ensures r.Stored? <==> file.Some? && file.value.originalname != "" && file.value.fieldname == "image"
                           && FileFilter(file.value) && file.value.size <= MaxFileSize
    ensures (file.Some? && file.value.originalname != "" && file.value.fieldname == "image" && !FileFilter(file.value))
              ==> r == UploadError("Only images are allowed")
  {
    match file
    case None => NoFile
    case Some(f) =>
      if f.originalname == "" then NoFile
      else if f.fieldname != "image" then UploadError("Unexpected field")
      else if !FileFilter(f) then UploadError("Only images are allowed")
      else if f.size > MaxFileSize then UploadError("File too large")
      else Stored(f.fieldname + "_" + Decimal(now) + ExtName(f.originalname))
  }

  /** `imagePath`: "/uploads/" and the stored name when a file was stored, else null. */
  function ImagePath(upload: UploadOutcome): (path: Option<string>)
    ensures path.Some? <==> upload.Stored?
    ensures path.Some? ==> path.value == "/uploads/" + upload.filename
  {
    if upload.Stored? then Some("/uploads/" + upload.filename) else None
  }

  /** A stored image's path is never empty, so the model's update always writes it; it
      names a file under "/uploads/" that ends with the original name's extension. */
  lemma StoredImagePath(file: UploadedFile, now: nat)
    requires Upload(Some(file), now).Stored?
    ensures var path := ImagePath(Upload(Some(file), now));
      && Truthy(path)
      && path.value[..9] == "/uploads/"
      && |ExtName(file.originalname)| <= |path.value|
      && path.value[|path.value| - |ExtName(file.originalname)|..] == ExtName(file.originalname)
  {
    var ext := ExtName(file.originalname);
    var path := ImagePath(Upload(Some(file), now)).value;
    assert path == ("/uploads/" + file.fieldname + "_" + Decimal(now)) + ext;
  }

  // ---------------------------------------------------------------------------
  // The handlers

  /** The text fields of the multipart form. `name` is "" when missing; `price` and `stock`
      are `None` when missing or empty (the non-empty string "0" is present). */
  datatype ProductForm = ProductForm(name: string, price: Option<int>, stock: Option<int>)

  /** `!name || !price || !stock` fails for none of them. */
  predicate RequiredFieldsPresent(form: ProductForm)
  {
    form.name != "" && form.price.Some? && form.stock.Some?
  }

  const FieldsRequired: Response<()> := Response(400, Message("Name, price, and stock are required."))

  /** `getAllProducts`: every row of the table with 200. */
  method GetAllProducts(store: ProductStore) returns (response: Response<seq<Product>>)
    requires store.Valid()
    ensures response == Response(StatusOk, Data(store.rows))
  {
    var all := store.GetAll();
    response := Response(StatusOk, Data(all));
  }

  /** `addProduct`: the upload, then the required fields, then one insert. */
  method AddProduct(store: ProductStore, file: Option<UploadedFile>, form: ProductForm, now: nat)
    returns (response: Response<()>)
    requires store.Valid()
    modifies store
    ensures store.Valid()
    ensures Upload(file, now).UploadError? ==>
              response == Response(500, ErrorBody(Upload(file, now).message)) && unchanged(store)
    ensures !Upload(file, now).UploadError? && !RequiredFieldsPresent(form) ==>
              response == FieldsRequired && unchanged(store)
    ensures !Upload(file, now).UploadError? && RequiredFieldsPresent(form) ==>
              && response == Response(201, MessageWithId("Product created successfully", old(store.nextId)))
              && store.nextId == old(store.nextId) + 1
              && store.rows == old(store.rows) + [Product(old(store.nextId), form.name, form.price.value,
                                                          form.stock.value, ImagePath(Upload(file, now)))]
  {
    var upload := Upload(file, now);
    if upload.UploadError? {
      return Response(500, ErrorBody(upload.message));
    }
    var imagePath := ImagePath(upload);
    if !RequiredFieldsPresent(form) {
      return FieldsRequired;
    }
    var insertId := store.Create(form.name, form.price.value, form.stock.value, imagePath);
    response := Response(201, MessageWithId("Product created successfully", insertId));
  }

  /** `updateProduct`: the upload, then the required fields, then the update; the reply is
      the same whether or not a row had that id. */
  method UpdateProduct(store: ProductStore, id: int, file: Option<UploadedFile>, form: ProductForm, now: nat)
    returns (response: Response<()>)
    requires store.Valid()
    modifies store
    ensures store.Valid()
    ensures Upload(file, now).UploadError? ==>
              response == Response(500, ErrorBody(Upload(file, now).message)) && unchanged(store)
    ensures !Upload(file, now).UploadError? && !RequiredFieldsPresent(form) ==>
              response == FieldsRequired && unchanged(store)
    ensures !Upload(file, now).UploadError? && RequiredFieldsPresent(form) ==>
              && response == Response(StatusOk, Message("Product updated successfully"))
              && store.nextId == old(store.nextId)
              && store.rows == UpdateRows(old(store.rows), id, form.name, form.price.value, form.stock.value,
                                          ImagePath(Upload(file, now)))
  {
    var upload := Upload(file, now);
    if upload.UploadError? {
      return Response(500, ErrorBody(upload.message));
    }
    var imagePath := ImagePath(upload);
    if !RequiredFieldsPresent(form) {
      return FieldsRequired;
    }
    var _ := store.Update(id, form.name, form.price.value, form.stock.value, imagePath);
    response := Response(StatusOk, Message("Product updated successfully"));
  }

  /** `deleteProduct`: 404 exactly when no row was deleted. */
  method DeleteProduct(store: ProductStore, id: int) returns (response: Response<()>)
    requires store.Valid()
    modifies store
    ensures store.Valid()
    ensures store.rows == RemoveProduct(old(store.rows), id) && store.nextId == old(store.nextId)
    ensures FindProduct(old(store.rows), id).None? ==> response == Response(404, Message("Product not found"))
    ensures FindProduct(old(store.rows), id).Some? ==> response == Response(StatusOk, Message("Product deleted successfully"))
  {
    var affectedRows := store.DeleteProduct(id);
    if affectedRows == 0 {
      return Response(404, Message("Product not found"));
    }
    response := Response(StatusOk, Message("Product deleted successfully"));
  }

  /** An update request without a file leaves the product's image as it was, and one with
      a stored file replaces it; the other fields are set either way. */
  lemma UpdateImageRule(rows: seq<Product>, id: int, file: Option<UploadedFile>, form: ProductForm, now: nat, k: nat)
    requires RequiredFieldsPresent(form) && !Upload(file, now).UploadError?
    requires k < |rows| && rows[k].id == id
    ensures var after := UpdateRows(rows, id, form.name, form.price.value, form.stock.value, ImagePath(Upload(file, now)));
      && |after| == |rows|
      && after[k].name == form.name && after[k].price == form.price.value && after[k].stock == form.stock.value
      && (Upload(file, now).NoFile? ==> after[k].image == rows[k].image)
      && (Upload(file, now).Stored? ==> after[k].image == ImagePath(Upload(file, now)) && after[k].image.Some?)
  {
    UpdateRowsAt(rows, id, form.name, form.price.value, form.stock.value, ImagePath(Upload(file, now)), k);
    if Upload(file, now).Stored? {
      StoredImagePath(file.value, now);
    }
  }
}
