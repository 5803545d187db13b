/** The menu item handlers: add (with the image choice), list, update, delete, and the
    list of categories. */
module MenuItemController {
  import opened Common
  import opened MenuItemModel
  import opened Store

  /** The empty image object `{}`. */
  const NoImage: Image := Image(None, None)

  /** The image a handler stores: the upload result when it has a url, otherwise the
      request body's image, otherwise `{}`. The upload result is `{}` when no file was
      sent. */
  function ChooseImage(upload: Image, bodyImage: Option<Image>): (r: Image)
    ensures Truthy(upload.url) ==> r == upload
    ensures !Truthy(upload.url) && bodyImage.Some? ==> r == bodyImage.value
    ensures !Truthy(upload.url) && bodyImage.None? ==> r == NoImage
  {
    if Truthy(upload.url) then upload else bodyImage.GetOr(NoImage)
  }

  /** The fields of a new or updated menu item as the request body carries them. */
  datatype MenuItemBody = MenuItemBody(
    name: Option<string>,
    description: Option<string>,
    price: Option<real>,
    category: Option<string>,
    image: Option<Image>,
    status: Option<string>)

  /** The item addMenuItem saves: the description defaults to "", and no custom category
      is passed on (so a "Custom" item cannot pass the schema). */
  function NewMenuItem(id: Id, body: MenuItemBody, upload: Image, userId: Id): Option<MenuItem>
  {
    SaveNewMenuItem(id, body.name, Some(if Truthy(body.description) then body.description.value else ""),
                    body.price, body.category, None, ChooseImage(upload, body.image), body.status, Some(userId))
  }

  /** What addMenuItem stores, stated on its inputs. */
  lemma NewMenuItemShape(id: Id, body: MenuItemBody, upload: Image, userId: Id)
    ensures NewMenuItem(id, body, upload, userId).Some? <==>
              && body.name.Some? && body.name.value != "" && body.price.Some?
              && body.category.Some? && body.category.value != "" && body.category.value != "Custom"
              && IsMenuStatus(body.status.GetOr("available"))
    ensures NewMenuItem(id, body, upload, userId).Some? ==>
              var m := NewMenuItem(id, body, upload, userId).value;
              && m.createdBy == userId && m.image == ChooseImage(upload, body.image)
              && m.description == Some(if Truthy(body.description) then body.description.value else "")
              && m.customCategory.None?
  {
  }

  /** `addMenuItem`. */
  method AddMenuItem(db: Db, userId: Option<Id>, body: MenuItemBody, upload: Image) returns (resp: Response)
    requires db.Valid()
    modifies db
    ensures db.Valid()
    ensures userId.None? ==>
              resp == Response(401, "Unauthorized. User ID required.") && db.Snapshot() == old(db.Snapshot())
    ensures userId.Some? && UserById(old(db.users), userId.value).None? ==>
              resp == Response(400, "Invalid user ID. User does not exist.") && db.Snapshot() == old(db.Snapshot())
    ensures userId.Some? && UserById(old(db.users), userId.value).Some? ==>
              var m := NewMenuItem(old(db.nextId), body, upload, userId.value);
              && (m.None? ==> resp == Response(500, "Server error") && db.Snapshot() == old(db.Snapshot()))
              && (m.Some? ==>
                    && resp == Response(201, "Menu item added successfully")
                    && db.menuItems == old(db.menuItems) + [m.value]
                    && db.nextId == old(db.nextId) + 1
                    && db.Snapshot() == old(db.Snapshot()).(menuItems := db.menuItems, nextId := db.nextId))
  {
    if userId.None? {
      return Response(401, "Unauthorized. User ID required.");
    }
    if UserById(db.users, userId.value).None? {
      return Response(400, "Invalid user ID. User does not exist.");
    }
    var m := NewMenuItem(db.nextId, body, upload, userId.value);
    if m.None? {
      return Response(500, "Server error");
    }
    ValidAddMenuItem(db.Snapshot(), m.value);
    ghost var after := db.Snapshot().(menuItems := db.menuItems + [m.value], nextId := db.nextId + 1);
    db.menuItems, db.nextId := db.menuItems + [m.value], db.nextId + 1;
    assert db.Snapshot() == after;
    return Response(201, "Menu item added successfully");
  }

  /** `getAllMenuItems`: 404 exactly when there are no items. */
  function GetAllMenuItems(items: seq<MenuItem>): (r: Response)
    ensures r.status == 404 <==> |items| == 0
    ensures |items| == 0 ==> r.message == "No menu items found."
  {
    if |items| == 0 then Response(404, "No menu items found.") else Response(200, "Menu items retrieved successfully")
  }

  /** The item after `findByIdAndUpdate`: absent fields are left out of the update and
      every present one is written as sent, with no validation; the image is always
      written. */
  function Patched(m: MenuItem, body: MenuItemBody, upload: Image): (r: MenuItem)
    ensures r.id == m.id && r.createdBy == m.createdBy && r.customCategory == m.customCategory
    ensures r.name == body.name.GetOr(m.name) && r.price == body.price.GetOr(m.price)
    ensures r.category == body.category.GetOr(m.category) && r.status == body.status.GetOr(m.status)
    ensures r.description == (if body.description.Some? then body.description else m.description)
    ensures r.image == ChooseImage(upload, body.image)
  {
    m.(name := body.name.GetOr(m.name),
       description := if body.description.Some? then body.description else m.description,
       price := body.price.GetOr(m.price),
       category := body.category.GetOr(m.category),
       image := ChooseImage(upload, body.image),
       status := body.status.GetOr(m.status))
  }

  /** `updateMenuItem`. */
  method UpdateMenuItem(db: Db, id: Id, body: MenuItemBody, upload: Image) returns (resp: Response)
    requires db.Valid()
    modifies db
    ensures db.Valid()
    ensures MenuItemById(old(db.menuItems), id).None? ==>
              resp == Response(404, "Menu item not found") && db.Snapshot() == old(db.Snapshot())
    ensures MenuItemById(old(db.menuItems), id).Some? ==>
              var k := MenuItemById(old(db.menuItems), id).value;
              && resp == Response(200, "Menu item updated successfully")
              && db.menuItems == old(db.menuItems)[k := Patched(old(db.menuItems)[k], body, upload)]
              && db.Snapshot() == old(db.Snapshot()).(menuItems := db.menuItems)
  {
    var found := MenuItemById(db.menuItems, id);
    if found.None? {
      return Response(404, "Menu item not found");
    }
    var k := found.value;
    db.menuItems := db.menuItems[k := Patched(db.menuItems[k], body, upload)];
    return Response(200, "Menu item updated successfully");
  }

  /** `deleteMenuItem`. */
  method DeleteMenuItem(db: Db, id: Id) returns (resp: Response)
    requires db.Valid()
    modifies db
    ensures db.Valid()
    ensures MenuItemById(old(db.menuItems), id).None? ==>
              resp == Response(404, "Menu item not found") && db.Snapshot() == old(db.Snapshot())
    ensures MenuItemById(old(db.menuItems), id).Some? ==>
              && resp == Response(200, "Menu item deleted successfully")
              && db.menuItems == RemoveAt(old(db.menuItems), MenuItemById(old(db.menuItems), id).value)
              && db.Snapshot() == old(db.Snapshot()).(menuItems := db.menuItems)
  {
    var found := MenuItemById(db.menuItems, id);
    if found.None? {
      return Response(404, "Menu item not found");
    }
    db.menuItems := RemoveAt(db.menuItems, found.value);
    return Response(200, "Menu item deleted successfully");
  }

  /** The category an item is listed under: its custom name for a "Custom" item that has
      one, its category otherwise. */
  function ListedCategory(m: MenuItem): string
  {
    if m.category == "Custom" && Truthy(m.customCategory) then m.customCategory.value else m.category
  }

  function ListedCategories(items: seq<MenuItem>): (r: seq<string>)
    ensures |r| == |items|
    ensures forall i :: 0 <= i < |items| ==> r[i] == ListedCategory(items[i])
  {
    seq(|items|, i requires 0 <= i < |items| => ListedCategory(items[i]))
  }

  /** `getMenuCategories`: the `Set` filled in item order, as an array. 404 when there
      are no items. The categories have no repeats, each is some item's listed category,
      every item's listed category is among them, and they keep first-occurrence order. */
  method GetMenuCategories(items: seq<MenuItem>) returns (resp: Response, categories: seq<string>)
    ensures |items| == 0 ==> resp == Response(404, "No menu items found.") && categories == []
    ensures |items| > 0 ==> resp == Response(200, "Categories retrieved successfully")
    ensures categories == Dedup(ListedCategories(items))
    ensures NoDuplicates(categories)
    ensures forall c :: c in categories <==> exists i :: 0 <= i < |items| && ListedCategory(items[i]) == c
  {
    var names := ListedCategories(items);
    DedupProperties(names);
    assert forall c :: c in names <==> exists i :: 0 <= i < |items| && ListedCategory(items[i]) == c by {
      forall c ensures c in names <==> exists i :: 0 <= i < |items| && ListedCategory(items[i]) == c {
        if c in names {
          var i :| 0 <= i < |names| && names[i] == c;
          assert ListedCategory(items[i]) == c;
        }
      }
    }
    if |items| == 0 {
      return Response(404, "No menu items found."), [];
    }
    categories := [];
    var i := 0;
    while i < |items|
      invariant 0 <= i <= |items|
      invariant categories == Dedup(names[..i])
    {
      var c := ListedCategory(items[i]);
      assert names[..i + 1][..i] == names[..i];
      if c !in categories {
        categories := categories + [c];
      }
      i := i + 1;
    }
    assert names[..|items|] == names;
    resp := Response(200, "Categories retrieved successfully");
  }
}
