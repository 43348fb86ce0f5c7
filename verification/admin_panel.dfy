/** The admin panel: form validation for the four catalogue entities, the
    add / update / delete handlers that keep the panel's lists in step with
    the admin service, and the guarded delete dispatch. What the service
    answered to each call is a parameter (`Err` when it threw). */
module AdminPanel {
  import opened Wrappers
  import opened Types
  import opened Text
  import opened ById

  // ---------------------------------------------------------------- messages

  /** The form fields an error can be recorded under. */
  datatype Field = NameField | PriceField | CategoryField | ImageField | ModifierField | IdField

  const PRODUCT_NAME_BLANK: string := "Tên sản phẩm không được để trống."
  const PRODUCT_PRICE_INVALID: string := "Giá phải lớn hơn 0."
  const PRODUCT_CATEGORY_INVALID: string := "Chọn danh mục hợp lệ."
  const PRODUCT_IMAGE_INVALID: string := "URL hình ảnh không hợp lệ."
  const PRODUCT_NAME_TAKEN: string := "Tên sản phẩm đã tồn tại."
  const TOPPING_NAME_BLANK: string := "Tên topping không được để trống."
  const TOPPING_PRICE_INVALID: string := "Giá phải là số không âm."
  const TOPPING_NAME_TAKEN: string := "Topping đã tồn tại."
  const SIZE_NAME_BLANK: string := "Tên size không được để trống."
  const SIZE_MODIFIER_INVALID: string := "Giá thêm phải là số không âm."
  const SIZE_NAME_TAKEN: string := "Size đã tồn tại."
  const CATEGORY_ID_BLANK: string := "ID danh mục không được để trống."
  const CATEGORY_ID_PATTERN: string := "ID chỉ được chứa chữ thường, số và dấu gạch ngang."
  const CATEGORY_NAME_BLANK: string := "Tên danh mục không được để trống."
  const CATEGORY_ID_TAKEN: string := "ID danh mục đã tồn tại."

  const NO_PERMISSION: string := "Bạn không có quyền thực hiện hành động này."
  const NO_DELETE_PERMISSION: string := "Bạn không có quyền xóa mục."
  const CATEGORY_IN_USE: string := "Không thể xóa danh mục đang được sử dụng bởi sản phẩm."

  const ADD_PRODUCT_FAILED: string := "Thêm sản phẩm thất bại"
  const UPDATE_PRODUCT_FAILED: string := "Cập nhật sản phẩm thất bại"
  const DELETE_PRODUCT_FAILED: string := "Xóa sản phẩm thất bại"
  const ADD_TOPPING_FAILED: string := "Thêm topping thất bại"
  const UPDATE_TOPPING_FAILED: string := "Cập nhật topping thất bại"
  const DELETE_TOPPING_FAILED: string := "Xóa topping thất bại"
  const ADD_SIZE_FAILED: string := "Thêm size thất bại"
  const UPDATE_SIZE_FAILED: string := "Cập nhật size thất bại"
  const DELETE_SIZE_FAILED: string := "Xóa size thất bại"
  const ADD_CATEGORY_FAILED: string := "Thêm danh mục thất bại"
  const UPDATE_CATEGORY_FAILED: string := "Cập nhật danh mục thất bại"
  const DELETE_CATEGORY_FAILED: string := "Xóa danh mục thất bại"

  // ---------------------------------------------------------------- forms

  datatype ProductForm = ProductForm(name: string, price: int, image: string, category: string)

  datatype ToppingForm = ToppingForm(name: string, price: int)

  datatype SizeForm = SizeForm(name: string, priceModifier: int)

  datatype CategoryForm = CategoryForm(id: string, name: string)

  datatype Tab = ProductsTab | ToppingsTab | SizesTab | CategoriesTab | AuditTab

  /** Two names clash when they agree after trimming and lower-casing. */
  predicate SameName(a: string, b: string)
  {
    ToLower(Trim(a)) == ToLower(Trim(b))
  }

  /** The id the duplicate-name checks skip: the one being edited, or 0. */
  function Excluded(isEditing: bool, editingId: TargetId): TargetId
  {
    if isEditing then editingId else NumberId(0)
  }

  /** `x.id !== excluded` for a numeric id: only a number can be equal. */
  predicate Skipped(id: int, excluded: TargetId)
  {
    excluded == NumberId(id)
  }

  function ProductName(p: Product): string { p.name }
  function ToppingName(t: Topping): string { t.name }
  function SizeName(s: Size): string { s.name }

  /** Some other record already carries that name. */
  predicate NameTaken<T>(items: seq<T>, name: string, excluded: TargetId, nameOf: T -> string, idOf: T -> int)
  {
    exists i :: 0 <= i < |items| && SameName(nameOf(items[i]), name) && !Skipped(idOf(items[i]), excluded)
  }

  /** `if (cond) errs[field] = msg`: a later message for the same field
      overrides an earlier one. */
  function Flag(errs: map<Field, string>, cond: bool, field: Field, msg: string): (r: map<Field, string>)
    ensures r.Keys == if cond then errs.Keys + {field} else errs.Keys
    ensures cond ==> r[field] == msg
    ensures forall f :: f in errs && (f != field || !cond) ==> r[f] == errs[f]
  {
    if cond then errs[field := msg] else errs
  }

  /** The product form's error record, given which checks failed; a clashing
      name overrides the blank-name message. */
  function ProductErrorMap(blank: bool, badPrice: bool, badCategory: bool, badImage: bool, taken: bool): (r: map<Field, string>)
    ensures r.Keys <= {NameField, PriceField, CategoryField, ImageField}
    ensures NameField in r <==> blank || taken
    ensures NameField in r ==> r[NameField] == if taken then PRODUCT_NAME_TAKEN else PRODUCT_NAME_BLANK
    ensures PriceField in r <==> badPrice
    ensures CategoryField in r <==> badCategory
    ensures ImageField in r <==> badImage
    ensures r.Keys == {} <==> !blank && !badPrice && !badCategory && !badImage && !taken
  {
    var e1 := Flag(map[], blank, NameField, PRODUCT_NAME_BLANK);
    var e2 := Flag(e1, badPrice, PriceField, PRODUCT_PRICE_INVALID);
    var e3 := Flag(e2, badCategory, CategoryField, PRODUCT_CATEGORY_INVALID);
    var e4 := Flag(e3, badImage, ImageField, PRODUCT_IMAGE_INVALID);
    Flag(e4, taken, NameField, PRODUCT_NAME_TAKEN)
  }

  /** `validateProductForm`: a blank name, a price that is not positive, a
      category not in the list, a non-empty image that is not a URL
      (`validUrl` stands for `new URL(...)` not throwing), and a name another
      product already has. */
  function ProductErrors(form: ProductForm, products: seq<Product>, categories: seq<Category>, excluded: TargetId,
                         validUrl: string -> bool): map<Field, string>
  {
    ProductErrorMap(
      IsBlank(form.name),
      form.price <= 0,
      !HasKey(categories, form.category, CategoryId),
      form.image != [] && !validUrl(form.image),
      NameTaken(products, form.name, excluded, ProductName, ProductId))
  }

  /** The product form passes exactly when the name is neither blank nor
      taken, the price is positive, the category exists and the image is
      empty or a URL. */
  lemma ProductFormAccepted(form: ProductForm, products: seq<Product>, categories: seq<Category>, excluded: TargetId,
                            validUrl: string -> bool)
    ensures ProductErrors(form, products, categories, excluded, validUrl).Keys == {} <==>
      && !IsBlank(form.name) && form.price > 0 && HasKey(categories, form.category, CategoryId)
      && (form.image == [] || validUrl(form.image))
      && !NameTaken(products, form.name, excluded, ProductName, ProductId)
  {
  }

  /** The topping and size forms' error record, given which checks failed:
      a blank name, a bad number in field `other`, a clashing name (which
      overrides the blank-name message). */
  function TwoFieldErrors(blank: bool, bad: bool, taken: bool, other: Field,
                          blankMsg: string, badMsg: string, takenMsg: string): (r: map<Field, string>)
    requires other != NameField
    ensures r.Keys <= {NameField, other}
    ensures NameField in r <==> blank || taken
    ensures NameField in r ==> r[NameField] == if taken then takenMsg else blankMsg
    ensures other in r <==> bad
    ensures other in r ==> r[other] == badMsg
    ensures r.Keys == {} <==> !blank && !bad && !taken
  {
    var e1 := Flag(map[], blank, NameField, blankMsg);
    var e2 := Flag(e1, bad, other, badMsg);
    Flag(e2, taken, NameField, takenMsg)
  }

  /** `validateToppingForm`: a blank name, a negative price, a clashing name. */
  function ToppingErrors(form: ToppingForm, toppings: seq<Topping>, excluded: TargetId): (r: map<Field, string>)
    ensures r.Keys <= {NameField, PriceField}
    ensures NameField in r <==> IsBlank(form.name) || NameTaken(toppings, form.name, excluded, ToppingName, ToppingId)
    ensures NameField in r ==>
      r[NameField] == if NameTaken(toppings, form.name, excluded, ToppingName, ToppingId) then TOPPING_NAME_TAKEN else TOPPING_NAME_BLANK
    ensures PriceField in r <==> form.price < 0
    ensures r.Keys == {} <==>
      !IsBlank(form.name) && form.price >= 0 && !NameTaken(toppings, form.name, excluded, ToppingName, ToppingId)
  {
    TwoFieldErrors(IsBlank(form.name), form.price < 0, NameTaken(toppings, form.name, excluded, ToppingName, ToppingId),
                   PriceField, TOPPING_NAME_BLANK, TOPPING_PRICE_INVALID, TOPPING_NAME_TAKEN)
  }

  /** `validateSizeForm`: a blank name, a negative modifier, a clashing name. */
  function SizeErrors(form: SizeForm, sizes: seq<Size>, excluded: TargetId): (r: map<Field, string>)
    ensures r.Keys <= {NameField, ModifierField}
    ensures NameField in r <==> IsBlank(form.name) || NameTaken(sizes, form.name, excluded, SizeName, SizeId)
    ensures NameField in r ==>
      r[NameField] == if NameTaken(sizes, form.name, excluded, SizeName, SizeId) then SIZE_NAME_TAKEN else SIZE_NAME_BLANK
    ensures ModifierField in r <==> form.priceModifier < 0
    ensures r.Keys == {} <==>
      !IsBlank(form.name) && form.priceModifier >= 0 && !NameTaken(sizes, form.name, excluded, SizeName, SizeId)
  {
    TwoFieldErrors(IsBlank(form.name), form.priceModifier < 0, NameTaken(sizes, form.name, excluded, SizeName, SizeId),
                   ModifierField, SIZE_NAME_BLANK, SIZE_MODIFIER_INVALID, SIZE_NAME_TAKEN)
  }

  /** `/^[a-z0-9\-]+$/`. */
  predicate IdPattern(id: string)
  {
    |id| > 0 && forall i :: 0 <= i < |id| ==> 'a' <= id[i] <= 'z' || '0' <= id[i] <= '9' || id[i] == '-'
  }

  /** `String(editingId)`. */
  function TargetText(t: TargetId): string
  {
    match t
    case NoTarget => "null"
    case NumberId(n) => if n >= 0 then NatToString(n) else "-" + NatToString(-n)
    case TextId(s) => s
  }

  /** `isEditing ? String(editingId) : ''`. */
  function ExcludedText(isEditing: bool, editingId: TargetId): string
  {
    if isEditing then TargetText(editingId) else ""
  }

  /** Another category already uses the id. */
  predicate CategoryIdTaken(categories: seq<Category>, id: string, isEditing: bool, editingId: TargetId)
  {
    exists i :: 0 <= i < |categories| && categories[i].id == id
      && categories[i].id != ExcludedText(isEditing, editingId)
  }

  /** The category form's error record, given which checks failed: the id
      message is the last failing id check's. */
  function CategoryErrorMap(blankId: bool, badPattern: bool, blankName: bool, taken: bool): (r: map<Field, string>)
    ensures r.Keys <= {IdField, NameField}
    ensures IdField in r <==> blankId || badPattern || taken
    ensures IdField in r ==>
      r[IdField] == if taken then CATEGORY_ID_TAKEN else if badPattern then CATEGORY_ID_PATTERN else CATEGORY_ID_BLANK
    ensures NameField in r <==> blankName
    ensures r.Keys == {} <==> !blankId && !badPattern && !blankName && !taken
  {
    var e1 := Flag(map[], blankId, IdField, CATEGORY_ID_BLANK);
    var e2 := Flag(e1, badPattern, IdField, CATEGORY_ID_PATTERN);
    var e3 := Flag(e2, blankName, NameField, CATEGORY_NAME_BLANK);
    Flag(e3, taken, IdField, CATEGORY_ID_TAKEN)
  }

  /** `validateCategoryForm`: a blank id, an id not matching the pattern, a
      blank name, and an id another category already uses. */
  function CategoryErrors(form: CategoryForm, categories: seq<Category>, isEditing: bool, editingId: TargetId): map<Field, string>
  {
    CategoryErrorMap(IsBlank(form.id), !IdPattern(form.id), IsBlank(form.name), CategoryIdTaken(categories, form.id, isEditing, editingId))
  }

  /** The category form passes exactly when the id matches the pattern and is
      unused and the name is not blank. */
  lemma CategoryFormAccepted(form: CategoryForm, categories: seq<Category>, isEditing: bool, editingId: TargetId)
    ensures CategoryErrors(form, categories, isEditing, editingId).Keys == {} <==>
      IdPattern(form.id) && !IsBlank(form.name) && !CategoryIdTaken(categories, form.id, isEditing, editingId)
  {
    PatternNotBlank(form.id);
  }

  /** An id that matches the pattern is never blank, since white space is not
      among the allowed characters. */
  lemma PatternNotBlank(id: string)
    ensures IdPattern(id) ==> !IsBlank(id)
  {
    if IdPattern(id) {
      assert !IsSpace(id[0]);
    }
  }

  /** The blank-id message is always overwritten by the pattern message, so
      the form never shows it. */
  lemma BlankIdMessageNeverShown(form: CategoryForm, categories: seq<Category>, isEditing: bool, editingId: TargetId)
    ensures var r := CategoryErrors(form, categories, isEditing, editingId);
      IdField in r ==> r[IdField] != CATEGORY_ID_BLANK
  {
    PatternNotBlank(form.id);
  }

  /** Names are pairwise distinct after trimming and lower-casing. */
  predicate DistinctNames(products: seq<Product>)
  {
    forall i, j :: 0 <= i < j < |products| ==> !SameName(products[i].name, products[j].name)
  }

  /** A product added through a form that passed validation keeps the names
      distinct, provided no product has the id 0 the new-product check skips. */
  lemma AddKeepsNamesDistinct(products: seq<Product>, categories: seq<Category>, form: ProductForm,
                              validUrl: string -> bool, created: Product)
    requires DistinctNames(products)
    requires forall i :: 0 <= i < |products| ==> products[i].id != 0
    requires ProductErrors(form, products, categories, NumberId(0), validUrl).Keys == {}
    requires created.name == form.name
    ensures DistinctNames(products + [created])
  {
    var s := products + [created];
    forall i, j | 0 <= i < j < |s|
      ensures !SameName(s[i].name, s[j].name)
    {
      if j == |products| {
        assert !(SameName(ProductName(products[i]), form.name) && !Skipped(ProductId(products[i]), NumberId(0)));
      }
    }
  }

  // ---------------------------------------------------------------- the panel

  /** The panel's lists, editing and delete-confirmation state, the last
      error shown and each form's errors. */
  class Panel {
    var products: seq<Product>
    var toppings: seq<Topping>
    var sizes: seq<Size>
    var categories: seq<Category>
    var activeTab: Tab
    var isEditing: bool
    var editingId: TargetId
    var showDeleteConfirm: bool
    var deleteId: TargetId
    var errorMessage: string
    var productErrors: map<Field, string>
    var toppingErrors: map<Field, string>
    var sizeErrors: map<Field, string>
    var categoryErrors: map<Field, string>

    constructor (products: seq<Product>, toppings: seq<Topping>, sizes: seq<Size>, categories: seq<Category>)
      ensures this.products == products && this.toppings == toppings && this.sizes == sizes && this.categories == categories
      ensures activeTab == ProductsTab && !isEditing && editingId == NoTarget
      ensures !showDeleteConfirm && deleteId == NoTarget && errorMessage == []
    {
      this.products := products;
      this.toppings := toppings;
      this.sizes := sizes;
      this.categories := categories;
      activeTab := ProductsTab;
      isEditing := false;
      editingId := NoTarget;
      showDeleteConfirm := false;
      deleteId := NoTarget;
      errorMessage := [];
      productErrors := map[];
      toppingErrors := map[];
      sizeErrors := map[];
      categoryErrors := map[];
    }

    /** `resetForms`, as far as the panel's state goes. */
    method ResetEditing()
      modifies this`isEditing, this`editingId
      ensures !isEditing && editingId == NoTarget
    {
      isEditing := false;
      editingId := NoTarget;
    }

    /** `handleTabChange`. */
    method ChangeTab(tab: Tab)
      modifies this`activeTab, this`isEditing, this`editingId
      ensures activeTab == tab && !isEditing && editingId == NoTarget
    {
      activeTab := tab;
      ResetEditing();
    }

    /** `handleEdit*`: the record's id becomes the one being edited. */
    method StartEditing(id: TargetId)
      modifies this`isEditing, this`editingId
      ensures isEditing && editingId == id
    {
      isEditing := true;
      editingId := id;
    }

    /** `confirmDelete`. */
    method ConfirmDelete(id: TargetId)
      modifies this`deleteId, this`showDeleteConfirm
      ensures deleteId == id && showDeleteConfirm
    {
      deleteId := id;
      showDeleteConfirm := true;
    }

    /** `handleAddProduct`: refused for non-admins before validating; an
        invalid form stops before the service is called; the created product
        is appended. */
    method AddProduct(admin: bool, form: ProductForm, validUrl: string -> bool, created: Result<Product, string>)
      modifies this`products, this`productErrors, this`errorMessage, this`isEditing, this`editingId
      ensures !admin ==> errorMessage == NO_PERMISSION && products == old(products) && productErrors == old(productErrors) && isEditing == old(isEditing) && editingId == old(editingId)
      ensures admin ==> productErrors == ProductErrors(form, old(products), old(categories), Excluded(old(isEditing), old(editingId)), validUrl)
      ensures admin && productErrors.Keys != {} ==> products == old(products) && errorMessage == old(errorMessage) && isEditing == old(isEditing) && editingId == old(editingId)
      ensures admin && productErrors.Keys == {} && created.Err? ==> products == old(products) && errorMessage == ADD_PRODUCT_FAILED && isEditing == old(isEditing) && editingId == old(editingId)
      ensures admin && productErrors.Keys == {} && created.Ok? ==>
        products == old(products) + [created.value] && !isEditing && editingId == NoTarget && errorMessage == old(errorMessage)
      ensures toppings == old(toppings) && sizes == old(sizes) && categories == old(categories)
    {
      if !admin {
        errorMessage := NO_PERMISSION;
        return;
      }
      var errs := ProductErrors(form, products, categories, Excluded(isEditing, editingId), validUrl);
      productErrors := errs;
      if errs.Keys != {} {
        return;
      }
      if created.Err? {
        errorMessage := ADD_PRODUCT_FAILED;
        return;
      }
      products := products + [created.value];
      ResetEditing();
    }

    /** `handleUpdateProduct`: as adding, but the product with the edited id
        is replaced by what the service returned. */
    method UpdateProduct(admin: bool, form: ProductForm, validUrl: string -> bool, updated: Result<Product, string>)
      modifies this`products, this`productErrors, this`errorMessage, this`isEditing, this`editingId
      ensures !admin ==> errorMessage == NO_PERMISSION && products == old(products) && productErrors == old(productErrors) && isEditing == old(isEditing) && editingId == old(editingId)
      ensures admin ==> productErrors == ProductErrors(form, old(products), old(categories), Excluded(old(isEditing), old(editingId)), validUrl)
      ensures admin && productErrors.Keys != {} ==> products == old(products) && errorMessage == old(errorMessage) && isEditing == old(isEditing) && editingId == old(editingId)
      ensures admin && productErrors.Keys == {} && updated.Err? ==> products == old(products) && errorMessage == UPDATE_PRODUCT_FAILED && isEditing == old(isEditing) && editingId == old(editingId)
      ensures admin && productErrors.Keys == {} && updated.Ok? ==>
        && products == (if old(editingId).NumberId? then Replace(old(products), old(editingId).n, updated.value, ProductId) else old(products))
        && !isEditing && editingId == NoTarget && errorMessage == old(errorMessage)
      ensures toppings == old(toppings) && sizes == old(sizes) && categories == old(categories)
    {
      if !admin {
        errorMessage := NO_PERMISSION;
        return;
      }
      var errs := ProductErrors(form, products, categories, Excluded(isEditing, editingId), validUrl);
      productErrors := errs;
      if errs.Keys != {} {
        return;
      }
      if updated.Err? {
        errorMessage := UPDATE_PRODUCT_FAILED;
        return;
      }
      if editingId.NumberId? {
        products := Replace(products, editingId.n, updated.value, ProductId);
      }
      ResetEditing();
    }

    /** `handleAddTopping`. */
    method AddTopping(admin: bool, form: ToppingForm, created: Result<Topping, string>)
      modifies this`toppings, this`toppingErrors, this`errorMessage, this`isEditing, this`editingId
      ensures !admin ==> errorMessage == NO_PERMISSION && toppings == old(toppings) && toppingErrors == old(toppingErrors) && isEditing == old(isEditing) && editingId == old(editingId)
      ensures admin ==> toppingErrors == ToppingErrors(form, old(toppings), Excluded(old(isEditing), old(editingId)))
      ensures admin && toppingErrors.Keys != {} ==> toppings == old(toppings) && errorMessage == old(errorMessage) && isEditing == old(isEditing) && editingId == old(editingId)
      ensures admin && toppingErrors.Keys == {} && created.Err? ==> toppings == old(toppings) && errorMessage == ADD_TOPPING_FAILED && isEditing == old(isEditing) && editingId == old(editingId)
      ensures admin && toppingErrors.Keys == {} && created.Ok? ==>
        toppings == old(toppings) + [created.value] && !isEditing && editingId == NoTarget && errorMessage == old(errorMessage)
      ensures products == old(products) && sizes == old(sizes) && categories == old(categories)
    {
      if !admin {
        errorMessage := NO_PERMISSION;
        return;
      }
      var errs := ToppingErrors(form, toppings, Excluded(isEditing, editingId));
      toppingErrors := errs;
      if errs.Keys != {} {
        return;
      }
      if created.Err? {
        errorMessage := ADD_TOPPING_FAILED;
        return;
      }
      toppings := toppings + [created.value];
      ResetEditing();
    }

    /** `handleUpdateTopping`. */
    method UpdateTopping(admin: bool, form: ToppingForm, updated: Result<Topping, string>)
      modifies this`toppings, this`toppingErrors, this`errorMessage, this`isEditing, this`editingId
      ensures !admin ==> errorMessage == NO_PERMISSION && toppings == old(toppings) && toppingErrors == old(toppingErrors) && isEditing == old(isEditing) && editingId == old(editingId)
      ensures admin ==> toppingErrors == ToppingErrors(form, old(toppings), Excluded(old(isEditing), old(editingId)))
      ensures admin && toppingErrors.Keys != {} ==> toppings == old(toppings) && errorMessage == old(errorMessage) && isEditing == old(isEditing) && editingId == old(editingId)
      ensures admin && toppingErrors.Keys == {} && updated.Err? ==> toppings == old(toppings) && errorMessage == UPDATE_TOPPING_FAILED && isEditing == old(isEditing) && editingId == old(editingId)
      ensures admin && toppingErrors.Keys == {} && updated.Ok? ==>
        && toppings == (if old(editingId).NumberId? then Replace(old(toppings), old(editingId).n, updated.value, ToppingId) else old(toppings))
        && !isEditing && editingId == NoTarget && errorMessage == old(errorMessage)
      ensures products == old(products) && sizes == old(sizes) && categories == old(categories)
    {
      if !admin {
        errorMessage := NO_PERMISSION;
        return;
      }
      var errs := ToppingErrors(form, toppings, Excluded(isEditing, editingId));
      toppingErrors := errs;
      if errs.Keys != {} {
        return;
      }
      if updated.Err? {
        errorMessage := UPDATE_TOPPING_FAILED;
        return;
      }
      if editingId.NumberId? {
        toppings := Replace(toppings, editingId.n, updated.value, ToppingId);
      }
      ResetEditing();
    }

    /** `handleAddSize`. */
    method AddSize(admin: bool, form: SizeForm, created: Result<Size, string>)
      modifies this`sizes, this`sizeErrors, this`errorMessage, this`isEditing, this`editingId
      ensures !admin ==> errorMessage == NO_PERMISSION && sizes == old(sizes) && sizeErrors == old(sizeErrors) && isEditing == old(isEditing) && editingId == old(editingId)
      ensures admin ==> sizeErrors == SizeErrors(form, old(sizes), Excluded(old(isEditing), old(editingId)))
      ensures admin && sizeErrors.Keys != {} ==> sizes == old(sizes) && errorMessage == old(errorMessage) && isEditing == old(isEditing) && editingId == old(editingId)
      ensures admin && sizeErrors.Keys == {} && created.Err? ==> sizes == old(sizes) && errorMessage == ADD_SIZE_FAILED && isEditing == old(isEditing) && editingId == old(editingId)
      ensures admin && sizeErrors.Keys == {} && created.Ok? ==>
        sizes == old(sizes) + [created.value] && !isEditing && editingId == NoTarget && errorMessage == old(errorMessage)
      ensures products == old(products) && toppings == old(toppings) && categories == old(categories)
    {
      if !admin {
        errorMessage := NO_PERMISSION;
        return;
      }
      var errs := SizeErrors(form, sizes, Excluded(isEditing, editingId));
      sizeErrors := errs;
      if errs.Keys != {} {
        return;
      }
      if created.Err? {
        errorMessage := ADD_SIZE_FAILED;
        return;
      }
      sizes := sizes + [created.value];
      ResetEditing();
    }

    /** `handleUpdateSize`. */
    method UpdateSize(admin: bool, form: SizeForm, updated: Result<Size, string>)
      modifies this`sizes, this`sizeErrors, this`errorMessage, this`isEditing, this`editingId
      ensures !admin ==> errorMessage == NO_PERMISSION && sizes == old(sizes) && sizeErrors == old(sizeErrors) && isEditing == old(isEditing) && editingId == old(editingId)
      ensures admin ==> sizeErrors == SizeErrors(form, old(sizes), Excluded(old(isEditing), old(editingId)))
      ensures admin && sizeErrors.Keys != {} ==> sizes == old(sizes) && errorMessage == old(errorMessage) && isEditing == old(isEditing) && editingId == old(editingId)
      ensures admin && sizeErrors.Keys == {} && updated.Err? ==> sizes == old(sizes) && errorMessage == UPDATE_SIZE_FAILED && isEditing == old(isEditing) && editingId == old(editingId)
      ensures admin && sizeErrors.Keys == {} && updated.Ok? ==>
        && sizes == (if old(editingId).NumberId? then Replace(old(sizes), old(editingId).n, updated.value, SizeId) else old(sizes))
        && !isEditing && editingId == NoTarget && errorMessage == old(errorMessage)
      ensures products == old(products) && toppings == old(toppings) && categories == old(categories)
    {
      if !admin {
        errorMessage := NO_PERMISSION;
        return;
      }
      var errs := SizeErrors(form, sizes, Excluded(isEditing, editingId));
      sizeErrors := errs;
      if errs.Keys != {} {
        return;
      }
      if updated.Err? {
        errorMessage := UPDATE_SIZE_FAILED;
        return;
      }
      if editingId.NumberId? {
        sizes := Replace(sizes, editingId.n, updated.value, SizeId);
      }
      ResetEditing();
    }

    /** `validateCategoryForm` as the handlers call it: the errors are shown
        and the caller learns whether there were any. */
    method ValidateCategory(form: CategoryForm) returns (valid: bool)
      modifies this`categoryErrors
      ensures categoryErrors == CategoryErrors(form, categories, isEditing, editingId)
      ensures valid <==> categoryErrors.Keys == {}
    {
      categoryErrors := CategoryErrors(form, categories, isEditing, editingId);
      valid := categoryErrors.Keys == {};
    }

    /** `handleAddCategory`. */
    method AddCategory(admin: bool, form: CategoryForm, created: Result<Category, string>)
      modifies this`categories, this`categoryErrors, this`errorMessage, this`isEditing, this`editingId
      ensures !admin ==> errorMessage == NO_PERMISSION && categories == old(categories) && categoryErrors == old(categoryErrors) && isEditing == old(isEditing) && editingId == old(editingId)
      ensures admin ==> categoryErrors == CategoryErrors(form, old(categories), old(isEditing), old(editingId))
      ensures admin && categoryErrors.Keys != {} ==> categories == old(categories) && errorMessage == old(errorMessage) && isEditing == old(isEditing) && editingId == old(editingId)
      ensures admin && categoryErrors.Keys == {} && created.Err? ==> categories == old(categories) && errorMessage == ADD_CATEGORY_FAILED && isEditing == old(isEditing) && editingId == old(editingId)
      ensures admin && categoryErrors.Keys == {} && created.Ok? ==>
        categories == old(categories) + [created.value] && !isEditing && editingId == NoTarget && errorMessage == old(errorMessage)
      ensures products == old(products) && toppings == old(toppings) && sizes == old(sizes)
    {
      if !admin {
        errorMessage := NO_PERMISSION;
        return;
      }
      var valid := ValidateCategory(form);
      if !valid {
        return;
      }
      if created.Err? {
        errorMessage := ADD_CATEGORY_FAILED;
        return;
      }
      categories := categories + [created.value];
      ResetEditing();
    }

    /** `handleUpdateCategory`: the category whose id is `String(editingId)`
        is replaced. */
    method UpdateCategory(admin: bool, form: CategoryForm, updated: Result<Category, string>)
      modifies this`categories, this`categoryErrors, this`errorMessage, this`isEditing, this`editingId
      ensures !admin ==> errorMessage == NO_PERMISSION && categories == old(categories) && categoryErrors == old(categoryErrors) && isEditing == old(isEditing) && editingId == old(editingId)
      ensures admin ==> categoryErrors == CategoryErrors(form, old(categories), old(isEditing), old(editingId))
      ensures admin && categoryErrors.Keys != {} ==> categories == old(categories) && errorMessage == old(errorMessage) && isEditing == old(isEditing) && editingId == old(editingId)
      ensures admin && categoryErrors.Keys == {} && updated.Err? ==> categories == old(categories) && errorMessage == UPDATE_CATEGORY_FAILED && isEditing == old(isEditing) && editingId == old(editingId)
      ensures admin && categoryErrors.Keys == {} && updated.Ok? ==>
        && categories == Replace(old(categories), TargetText(old(editingId)), updated.value, CategoryId)
        && !isEditing && editingId == NoTarget && errorMessage == old(errorMessage)
      ensures products == old(products) && toppings == old(toppings) && sizes == old(sizes)
    {
      if !admin {
        errorMessage := NO_PERMISSION;
        return;
      }
      var valid := ValidateCategory(form);
      if !valid {
        return;
      }
      if updated.Err? {
        errorMessage := UPDATE_CATEGORY_FAILED;
        return;
      }
      categories := Replace(categories, TargetText(editingId), updated.value, CategoryId);
      ResetEditing();
    }

    /** `handleDelete`: refused for non-admins (closing the confirmation);
        nothing happens without a pending id; otherwise the active tab's
        list loses the records with that id once the service succeeded. A
        category some product uses is never deleted. */
    method Delete(admin: bool, answer: Result<(), string>)
      modifies this`products, this`toppings, this`sizes, this`categories, this`errorMessage, this`showDeleteConfirm, this`deleteId
      ensures !admin ==>
        && errorMessage == NO_DELETE_PERMISSION && !showDeleteConfirm && deleteId == NoTarget
        && products == old(products) && toppings == old(toppings) && sizes == old(sizes) && categories == old(categories)
      ensures admin && old(deleteId) == NoTarget ==> unchanged(this)
      ensures admin && old(deleteId) != NoTarget ==> DeleteOutcome(old(activeTab), old(deleteId), answer,
        old(products), old(toppings), old(sizes), old(categories), old(errorMessage), old(showDeleteConfirm),
        products, toppings, sizes, categories, errorMessage, showDeleteConfirm, deleteId)
    {
      if !admin {
        errorMessage := NO_DELETE_PERMISSION;
        showDeleteConfirm := false;
        deleteId := NoTarget;
        return;
      }
      if deleteId == NoTarget {
        return;
      }
      var id := deleteId;
      match activeTab
      case ProductsTab =>
        if answer.Err? {
          errorMessage := DELETE_PRODUCT_FAILED;
          return;
        }
        if id.NumberId? {
          products := Remove(products, id.n, ProductId);
        }
        CloseConfirm();
      case ToppingsTab =>
        if answer.Err? {
          errorMessage := DELETE_TOPPING_FAILED;
          return;
        }
        if id.NumberId? {
          toppings := Remove(toppings, id.n, ToppingId);
        }
        CloseConfirm();
      case SizesTab =>
        if answer.Err? {
          errorMessage := DELETE_SIZE_FAILED;
          return;
        }
        if id.NumberId? {
          sizes := Remove(sizes, id.n, SizeId);
        }
        CloseConfirm();
      case CategoriesTab =>
        if id.TextId? && CategoryInUse(products, id.s) {
          errorMessage := CATEGORY_IN_USE;
          CloseConfirm();
          return;
        }
        if answer.Err? {
          errorMessage := DELETE_CATEGORY_FAILED;
          return;
        }
        if id.TextId? {
          categories := Remove(categories, id.s, CategoryId);
        }
        CloseConfirm();
      case AuditTab =>
    }

    method CloseConfirm()
      modifies this`showDeleteConfirm, this`deleteId
      ensures !showDeleteConfirm && deleteId == NoTarget
    {
      showDeleteConfirm := false;
      deleteId := NoTarget;
    }
  }

  /** `localProducts.some(p => p.category === id)`. */
  predicate CategoryInUse(products: seq<Product>, id: string)
  {
    exists i :: 0 <= i < |products| && products[i].category == id
  }

  /** What a delete with a pending id leaves behind, tab by tab: the service
      failing shows that tab's message and keeps the confirmation open; a
      category in use is refused before the service is called; a numeric id
      never matches a category and a text id never matches the numeric ids. */
  ghost predicate DeleteOutcome(tab: Tab, id: TargetId, answer: Result<(), string>,
    products: seq<Product>, toppings: seq<Topping>, sizes: seq<Size>, categories: seq<Category>,
    errorMessage: string, showDeleteConfirm: bool,
    products': seq<Product>, toppings': seq<Topping>, sizes': seq<Size>, categories': seq<Category>,
    errorMessage': string, showDeleteConfirm': bool, deleteId': TargetId)
  {
    var closed := !showDeleteConfirm' && deleteId' == NoTarget;
    var kept := deleteId' == id && showDeleteConfirm' == showDeleteConfirm;
    match tab
    case ProductsTab =>
      toppings' == toppings && sizes' == sizes && categories' == categories
      && if answer.Err? then products' == products && errorMessage' == DELETE_PRODUCT_FAILED && kept
         else products' == (if id.NumberId? then Remove(products, id.n, ProductId) else products) && errorMessage' == errorMessage && closed
    case ToppingsTab =>
      products' == products && sizes' == sizes && categories' == categories
      && if answer.Err? then toppings' == toppings && errorMessage' == DELETE_TOPPING_FAILED && kept
         else toppings' == (if id.NumberId? then Remove(toppings, id.n, ToppingId) else toppings) && errorMessage' == errorMessage && closed
    case SizesTab =>
      products' == products && toppings' == toppings && categories' == categories
      && if answer.Err? then sizes' == sizes && errorMessage' == DELETE_SIZE_FAILED && kept
         else sizes' == (if id.NumberId? then Remove(sizes, id.n, SizeId) else sizes) && errorMessage' == errorMessage && closed
    case CategoriesTab =>
      products' == products && toppings' == toppings && sizes' == sizes
      && if id.TextId? && CategoryInUse(products, id.s) then categories' == categories && errorMessage' == CATEGORY_IN_USE && closed
         else if answer.Err? then categories' == categories && errorMessage' == DELETE_CATEGORY_FAILED && kept
         else categories' == (if id.TextId? then Remove(categories, id.s, CategoryId) else categories) && errorMessage' == errorMessage && closed
    case AuditTab =>
      products' == products && toppings' == toppings && sizes' == sizes && categories' == categories
      && errorMessage' == errorMessage && kept
  }
}
