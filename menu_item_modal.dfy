/** The menu item edit/add modal: form pre-fill, field changes, the three checks of
    validateForm, and the request the submit sends. */
module MenuItemModal {
  import opened Common
  import opened MenuItemModel
  import opened MenuItemController

  datatype ModalForm = ModalForm(name: string, description: string, price: real, category: string, status: string,
                                 hasFile: bool, previewImage: string)

  /** The pre-fill: the edited item's fields, or a blank item under the first fetched
      category and "available". */
  function Prefill(item: Option<MenuItem>, categories: seq<string>): (r: ModalForm)
    ensures item.Some? ==>
              && r.name == item.value.name && r.description == item.value.description.GetOr("")
              && r.price == item.value.price && r.category == item.value.category && r.status == item.value.status
              && r.previewImage == item.value.image.url.GetOr("")
    ensures item.None? ==>
              && r.name == "" && r.description == "" && r.price == 0.0 && r.status == "available"
              && r.category == (if |categories| > 0 then categories[0] else "") && r.previewImage == ""
    ensures !r.hasFile
  {
    match item
    case Some(m) => ModalForm(m.name, m.description.GetOr(""), m.price, m.category, m.status, false, m.image.url.GetOr(""))
    case None => ModalForm("", "", 0.0, if |categories| > 0 then categories[0] else "", "available", false, "")
  }

  datatype FormField = NameInput | DescriptionInput | PriceInput | CategoryInput | StatusInput

  /** `handleChange`: the price input is parsed (`parseFloat` is passed in), every other
      input is copied as typed; no other field changes. */
  function HandleChange(form: ModalForm, field: FormField, value: string, parseFloat: string -> real): (r: ModalForm)
    ensures field == PriceInput ==> r == form.(price := parseFloat(value))
    ensures field == NameInput ==> r == form.(name := value)
    ensures field == DescriptionInput ==> r == form.(description := value)
    ensures field == CategoryInput ==> r == form.(category := value)
    ensures field == StatusInput ==> r == form.(status := value)
  {
    match field
    case PriceInput => form.(price := parseFloat(value))
    case NameInput => form.(name := value)
    case DescriptionInput => form.(description := value)
    case CategoryInput => form.(category := value)
    case StatusInput => form.(status := value)
  }

  /** The characters `String.prototype.trim` strips: the ASCII blanks, no-break space,
      the byte-order mark, the line and paragraph separators, and the Unicode space
      separators. */
  predicate IsSpace(c: char)
  {
    var n := c as int;
    || n in {0x09, 0x0A, 0x0B, 0x0C, 0x0D, 0x20, 0xA0, 0x1680, 0x2028, 0x2029, 0x202F, 0x205F, 0x3000, 0xFEFF}
    || 0x2000 <= n <= 0x200A
  }

  function TrimStart(s: string): string
  {
    if |s| > 0 && IsSpace(s[0]) then TrimStart(s[1..]) else s
  }

  function TrimEnd(s: string): string
  {
    if |s| > 0 && IsSpace(s[|s| - 1]) then TrimEnd(s[..|s| - 1]) else s
  }

  function Trim(s: string): string
  {
    TrimEnd(TrimStart(s))
  }

  predicate AllSpace(s: string)
  {
    forall i :: 0 <= i < |s| ==> IsSpace(s[i])
  }

  lemma {:induction false} TrimStartEmpty(s: string)
    ensures TrimStart(s) == "" <==> AllSpace(s)
  {
    if |s| > 0 && IsSpace(s[0]) {
      TrimStartEmpty(s[1..]);
      assert forall i :: 0 < i < |s| ==> s[i] == s[1..][i - 1];
    }
  }

  lemma {:induction false} TrimEndKeepsFirst(s: string)
    requires |s| > 0 && !IsSpace(s[0])
    ensures TrimEnd(s) != ""
  {
    if |s| > 1 && IsSpace(s[|s| - 1]) {
      TrimEndKeepsFirst(s[..|s| - 1]);
    }
  }

  /** A string trims to "" exactly when it is all whitespace. */
  lemma TrimEmptyIff(s: string)
    ensures Trim(s) == "" <==> AllSpace(s)
  {
    TrimStartEmpty(s);
    var t := TrimStart(s);
    if t != "" {
      TrimStartShape(s);
      TrimEndKeepsFirst(t);
    }
  }

  lemma {:induction false} TrimStartShape(s: string)
    ensures TrimStart(s) != "" ==> !IsSpace(TrimStart(s)[0])
  {
    if |s| > 0 && IsSpace(s[0]) {
      TrimStartShape(s[1..]);
    }
  }

  const NameError := "Name is required"
  const PriceError := "Price must be greater than 0"
  const CategoryError := "Category is required"

  /** `validateForm`: the error messages keyed by field, and whether there are none. */
  method ValidateForm(form: ModalForm) returns (errors: map<string, string>, valid: bool)
    ensures "name" in errors <==> AllSpace(form.name)
    ensures "price" in errors <==> form.price <= 0.0
    ensures "category" in errors <==> AllSpace(form.category)
    ensures errors.Keys <= {"name", "price", "category"}
    ensures "name" in errors ==> errors["name"] == NameError
    ensures "price" in errors ==> errors["price"] == PriceError
    ensures "category" in errors ==> errors["category"] == CategoryError
    ensures valid <==> !AllSpace(form.name) && form.price > 0.0 && !AllSpace(form.category)
  {
    TrimEmptyIff(form.name);
    TrimEmptyIff(form.category);
    errors := map[];
    if Trim(form.name) == "" {
      errors := errors["name" := NameError];
    }
    if form.price <= 0.0 {
      errors := errors["price" := PriceError];
    }
    if Trim(form.category) == "" {
      errors := errors["category" := CategoryError];
    }
    valid := |errors| == 0;
    if !valid {
      assert "name" in errors || "price" in errors || "category" in errors;
    }
  }

  /** The request the submit sends: an update of the edited item, or a new item. */
  datatype ModalRequest = UpdateRequest(id: Id, body: MenuItemBody) | AddRequest(body: MenuItemBody)

  /** The multipart body: name, description, price, category and status; the file goes
      to the upload, not the body. */
  function FormBody(form: ModalForm): (b: MenuItemBody)
    ensures b.name == Some(form.name) && b.description == Some(form.description) && b.price == Some(form.price)
    ensures b.category == Some(form.category) && b.status == Some(form.status) && b.image.None?
  {
    MenuItemBody(Some(form.name), Some(form.description), Some(form.price), Some(form.category), None,
                 Some(form.status))
  }

  /** `handleSubmit`: nothing is sent unless the form validates. */
  method HandleSubmit(form: ModalForm, item: Option<MenuItem>) returns (request: Option<ModalRequest>)
    ensures request.Some? <==> !AllSpace(form.name) && form.price > 0.0 && !AllSpace(form.category)
    ensures request.Some? && item.Some? ==> request.value == UpdateRequest(item.value.id, FormBody(form))
    ensures request.Some? && item.None? ==> request.value == AddRequest(FormBody(form))
  {
    var errors, valid := ValidateForm(form);
    if !valid {
      return None;
    }
    match item
    case Some(m) => request := Some(UpdateRequest(m.id, FormBody(form)));
    case None => request := Some(AddRequest(FormBody(form)));
  }

  /** A new item that passes the modal's checks is stored by addMenuItem unless its
      category is "Custom" or its status is outside the schema's two values. */
  lemma ValidatedAddIsStored(form: ModalForm, id: Id, upload: Image, userId: Id)
    requires !AllSpace(form.name) && form.price > 0.0 && !AllSpace(form.category)
    ensures NewMenuItem(id, FormBody(form), upload, userId).Some? <==>
              form.category != "Custom" && IsMenuStatus(form.status)
  {
    NewMenuItemShape(id, FormBody(form), upload, userId);
    assert form.name != "" && form.category != "";
  }
}
