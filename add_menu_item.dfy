/** The admin "add menu item" form: its validation schema, and the request its submit
    produces, which the server's addMenuItem then handles. */
module AddMenuItemForm {
  import opened Common
  import opened MenuItemModel
  import opened MenuItemController

  /** The chosen file's size in bytes and MIME type. */
  datatype ImageFile = ImageFile(size: nat, mimeType: string)

  /** The form values; `price` is `None` while the field does not hold a number. */
  datatype AddItemValues = AddItemValues(name: string, description: string, price: Option<real>, category: string,
                                         customCategory: string, image: Option<ImageFile>)

  const InitialValues := AddItemValues("", "", None, "", "", None)

  const FormCategories: seq<string> := ["Appetizer", "Main Course", "Dessert", "Beverage", "Custom"]
  const MaxImageSize: nat := 5 * 1024 * 1024
  const ImageTypes: seq<string> := ["image/jpeg", "image/png", "image/gif"]

  /** Required, 3 to 50 characters. */
  predicate NameOk(name: string)
  {
    name != "" && 3 <= |name| <= 50
  }

  /** Required, 10 to 200 characters. */
  predicate DescriptionOk(description: string)
  {
    description != "" && 10 <= |description| <= 200
  }

  /** Required, from 0.01 to 10000, both ends included. */
  predicate PriceOk(price: Option<real>)
  {
    price.Some? && 0.01 <= price.value <= 10000.0
  }

  predicate CategoryOk(category: string)
  {
    category != "" && category in FormCategories
  }

  /** Required, 3 to 30 characters, only under the "Custom" category. */
  predicate CustomCategoryOk(category: string, customCategory: string)
  {
    category == "Custom" ==> customCategory != "" && 3 <= |customCategory| <= 30
  }

  /** Required, at most 5 MiB, and a JPEG, PNG or GIF. */
  predicate ImageOk(image: Option<ImageFile>)
  {
    image.Some? && image.value.size <= MaxImageSize && image.value.mimeType in ImageTypes
  }

  datatype Field = NameField | DescriptionField | PriceField | CategoryField | CustomCategoryField | ImageField

  /** The fields the schema reports an error on. */
  function InvalidFields(v: AddItemValues): (r: set<Field>)
    ensures NameField in r <==> !NameOk(v.name)
    ensures DescriptionField in r <==> !DescriptionOk(v.description)
    ensures PriceField in r <==> !PriceOk(v.price)
    ensures CategoryField in r <==> !CategoryOk(v.category)
    ensures CustomCategoryField in r <==> !CustomCategoryOk(v.category, v.customCategory)
    ensures ImageField in r <==> !ImageOk(v.image)
  {
    (if NameOk(v.name) then {} else {NameField})
    + (if DescriptionOk(v.description) then {} else {DescriptionField})
    + (if PriceOk(v.price) then {} else {PriceField})
    + (if CategoryOk(v.category) then {} else {CategoryField})
    + (if CustomCategoryOk(v.category, v.customCategory) then {} else {CustomCategoryField})
    + (if ImageOk(v.image) then {} else {ImageField})
  }

  /** Formik submits only when the schema reports nothing. */
  predicate Submittable(v: AddItemValues)
  {
    InvalidFields(v) == {}
  }

  /** The empty form fails every rule except the custom name, which no category needs yet. */
  lemma InitialValuesRejected()
    ensures InvalidFields(InitialValues) == {NameField, DescriptionField, PriceField, CategoryField, ImageField}
  {
  }

  /** The category sent: the custom name under "Custom", otherwise the chosen category. */
  function SubmittedCategory(v: AddItemValues): (r: string)
    ensures v.category == "Custom" ==> r == v.customCategory
    ensures v.category != "Custom" ==> r == v.category
  {
    if v.category == "Custom" then v.customCategory else v.category
  }

  /** The multipart request: name, description, price, the submitted category and the
      file; no status and no image object in the body. */
  function SubmittedBody(v: AddItemValues): (b: MenuItemBody)
    ensures b.name == Some(v.name) && b.description == Some(v.description) && b.price == v.price
    ensures b.category == Some(SubmittedCategory(v))
    ensures b.image.None? && b.status.None?
  {
    MenuItemBody(Some(v.name), Some(v.description), v.price, Some(SubmittedCategory(v)), None, None)
  }

  /** A form that passes its schema is stored by addMenuItem, except when the custom
      category is literally named "Custom", which the server's schema then refuses. */
  lemma SubmittableFormIsStored(v: AddItemValues, id: Id, upload: Image, userId: Id)
    requires Submittable(v)
    ensures NewMenuItem(id, SubmittedBody(v), upload, userId).Some? <==>
              !(v.category == "Custom" && v.customCategory == "Custom")
    ensures NewMenuItem(id, SubmittedBody(v), upload, userId).Some? ==>
              var m := NewMenuItem(id, SubmittedBody(v), upload, userId).value;
              m.category == SubmittedCategory(v) && m.category != "Custom" && m.status == "available"
  {
    NewMenuItemShape(id, SubmittedBody(v), upload, userId);
  }
}
