/** The menu item document: name, description, price, category (with a custom name
    when the category is "Custom"), image, availability and author. */
module MenuItemModel {
  import opened Common

  /** The image sub-document; `{}` is `Image(None, None)`. */
  datatype Image = Image(url: Option<string>, publicId: Option<string>)

  /** `status` is kept as the stored string, since updates bypass the enum check. */
  datatype MenuItem = MenuItem(
    id: Id,
    name: string,
    description: Option<string>,
    price: real,
    category: string,
    customCategory: Option<string>,
    image: Image,
    status: string,
    createdBy: Id)

  predicate IsMenuStatus(s: string)
  {
    s == "available" || s == "unavailable"
  }

  /** The schema's validators: name and category required, a custom name required
      exactly for the "Custom" category, status from its enum. */
  predicate MenuItemValid(m: MenuItem)
  {
    && m.name != ""
    && m.category != ""
    && (m.category == "Custom" ==> Truthy(m.customCategory))
    && IsMenuStatus(m.status)
  }

  /** What `new MenuItem(fields).save()` stores: `None` when name, price, category or
      createdBy is missing or a validator fails; the status defaults to "available". */
  function SaveNewMenuItem(id: Id, name: Option<string>, description: Option<string>,
                           price: Option<real>, category: Option<string>,
                           customCategory: Option<string>, image: Image,
                           status: Option<string>, createdBy: Option<Id>): (r: Option<MenuItem>)
    ensures r.Some? ==> MenuItemValid(r.value) && r.value.id == id
    ensures r.Some? ==> Some(r.value.name) == name && Some(r.value.price) == price
    ensures r.Some? ==> Some(r.value.category) == category && Some(r.value.createdBy) == createdBy
    ensures r.Some? ==> r.value.customCategory == customCategory && r.value.image == image
    ensures r.Some? ==> r.value.description == description
    ensures r.Some? ==> r.value.status == status.GetOr("available")
    ensures r.None? <==> || name.None? || price.None? || category.None? || createdBy.None?
                         || !MenuItemValid(MenuItem(id, name.value, description, price.value,
                                                    category.value, customCategory, image,
                                                    status.GetOr("available"), createdBy.value))
  {
    if name.None? || price.None? || category.None? || createdBy.None? then None
    else
      var m := MenuItem(id, name.value, description, price.value, category.value, customCategory,
                        image, status.GetOr("available"), createdBy.value);
      if MenuItemValid(m) then Some(m) else None
  }

  /** The "Custom" category can only be saved together with a custom name. */
  lemma CustomNeedsName(id: Id, name: Option<string>, description: Option<string>,
                        price: Option<real>, image: Image, status: Option<string>,
                        createdBy: Option<Id>)
    ensures SaveNewMenuItem(id, name, description, price, Some("Custom"), None, image, status,
                            createdBy).None?
  {
  }
}
