/**
 * The admin menu-items page: the restaurant filter over the item list, the
 * restaurant-name lookup shown on each row, the add/edit dialog and the
 * choice between creating and updating an item when the dialog is submitted.
 */
module AdminMenus {
  import opened Wrappers
  import opened Seqs
  import opened Schema

  /** The restaurant filter of one row: "" and "all" let every item through,
      any other value only the items of that restaurant. */
  predicate PassesRestaurantFilter(item: MenuItem, filterRestaurant: string)
  {
    filterRestaurant == "" || filterRestaurant == "all" || item.restaurantId == filterRestaurant
  }

  /** `menuItems?.filter(...)`: absent while the list has not loaded. */
  function FilteredMenuItems(menuItems: Option<seq<MenuItem>>, filterRestaurant: string): Option<seq<MenuItem>>
  {
    match menuItems
    case None => None
    case Some(items) => Some(Filter(items, (item: MenuItem) => PassesRestaurantFilter(item, filterRestaurant)))
  }

  /** "" and "all" show the loaded list unchanged. */
  lemma FilterAllKeepsEverything(menuItems: Option<seq<MenuItem>>, filterRestaurant: string)
    requires filterRestaurant == "" || filterRestaurant == "all"
    ensures FilteredMenuItems(menuItems, filterRestaurant) == menuItems
  {
    if menuItems.Some? {
      FilterKeepsAll(menuItems.value, (item: MenuItem) => PassesRestaurantFilter(item, filterRestaurant));
    }
  }

  /** Any other value shows exactly the items of that restaurant, in list order. */
  lemma FilterByRestaurant(items: seq<MenuItem>, filterRestaurant: string)
    requires filterRestaurant != "" && filterRestaurant != "all"
    ensures FilteredMenuItems(Some(items), filterRestaurant).Some?
    ensures IsSubsequence(FilteredMenuItems(Some(items), filterRestaurant).value, items)
    ensures forall item :: item in FilteredMenuItems(Some(items), filterRestaurant).value <==>
      item in items && item.restaurantId == filterRestaurant
  {
    FilterIsSubsequence(items, (item: MenuItem) => PassesRestaurantFilter(item, filterRestaurant));
  }

  /** `find` on the restaurant id, returning the index of the element it
      finds: the first position holding that id, if any. */
  function FindById(restaurants: seq<Restaurant>, id: string): (k: Option<nat>)
    ensures k.None? <==> forall i :: 0 <= i < |restaurants| ==> restaurants[i].id != id
    ensures k.Some? ==>
      && k.value < |restaurants| && restaurants[k.value].id == id
      && forall i :: 0 <= i < k.value ==> restaurants[i].id != id
  {
    if restaurants == [] then None
    else if restaurants[0].id == id then Some(0)
    else match FindById(restaurants[1..], id)
      case None =>
        assert forall i :: 1 <= i < |restaurants| ==> restaurants[i] == restaurants[1..][i - 1];
        None
      case Some(j) =>
        assert forall i :: 1 <= i <= j ==> restaurants[i] == restaurants[1..][i - 1];
        Some(j + 1)
  }

  /** `restaurants?.find(r => r.id === id)?.name || "Unknown"`. */
  function GetRestaurantName(restaurants: Option<seq<Restaurant>>, restaurantId: string): string
  {
    match restaurants
    case None => "Unknown"
    case Some(rs) =>
      match FindById(rs, restaurantId)
      case None => "Unknown"
      case Some(k) => if rs[k].name == "" then "Unknown" else rs[k].name
  }

  /** The name shown is the first matching restaurant's, or "Unknown" when the
      list has not loaded, no restaurant has the id, or that name is empty. */
  lemma GetRestaurantNameSpec(restaurants: Option<seq<Restaurant>>, restaurantId: string)
    ensures restaurants.None? ==> GetRestaurantName(restaurants, restaurantId) == "Unknown"
    ensures restaurants.Some? && (forall r :: r in restaurants.value ==> r.id != restaurantId) ==>
      GetRestaurantName(restaurants, restaurantId) == "Unknown"
    ensures restaurants.Some? ==> forall k ::
      0 <= k < |restaurants.value| && restaurants.value[k].id == restaurantId
      && (forall i :: 0 <= i < k ==> restaurants.value[i].id != restaurantId) ==>
        GetRestaurantName(restaurants, restaurantId)
          == if restaurants.value[k].name == "" then "Unknown" else restaurants.value[k].name
  {
  }

  predicate UniqueIds(restaurants: seq<Restaurant>)
  {
    forall i, j :: 0 <= i < j < |restaurants| ==> restaurants[i].id != restaurants[j].id
  }

  /** With unique ids, a listed restaurant with a name is shown by that name. */
  lemma NameOfListedRestaurant(restaurants: seq<Restaurant>, r: Restaurant)
    requires UniqueIds(restaurants) && r in restaurants && r.name != ""
    ensures GetRestaurantName(Some(restaurants), r.id) == r.name
  {
    var i :| 0 <= i < |restaurants| && restaurants[i] == r;
    var k := FindById(restaurants, r.id).value;
    assert !(k < i) && !(i < k);
  }

  /** The values of the add/edit form. */
  datatype MenuItemForm = MenuItemForm(
    restaurantId: string,
    name: string,
    description: string,
    price: string,
    category: string,
    imageUrl: string)

  /** The `useForm` default values of the form. */
  const DefaultForm := MenuItemForm("", "", "", "0", "", "")

  /** `value || ""` on a nullable text column. */
  function OrEmpty(value: Option<string>): string
  {
    if value.Some? then value.value else ""
  }

  /** The form filled from an existing item for editing. */
  function Prefill(item: MenuItem): (f: MenuItemForm)
    ensures f.restaurantId == item.restaurantId && f.name == item.name
    ensures f.price == item.price && f.category == item.category
    ensures f.description == "" <==> item.description.None? || item.description == Some("")
    ensures item.description.Some? ==> f.description == item.description.value
    ensures f.imageUrl == "" <==> item.imageUrl.None? || item.imageUrl == Some("")
    ensures item.imageUrl.Some? ==> f.imageUrl == item.imageUrl.value
  {
    MenuItemForm(item.restaurantId, item.name, OrEmpty(item.description),
                 item.price, item.category, OrEmpty(item.imageUrl))
  }

  /** The request a submitted form sends. */
  datatype Mutation = Create(data: MenuItemForm) | Update(id: string, data: MenuItemForm)

  /** `onSubmit`: an update of the item being edited, otherwise a create. */
  function SubmitAction(editingMenuItem: Option<MenuItem>, data: MenuItemForm): Mutation
  {
    if editingMenuItem.Some? then Update(editingMenuItem.value.id, data) else Create(data)
  }

  /** An update is sent exactly while an item is being edited, it carries that
      item's id, and either request carries the submitted values unchanged. */
  lemma SubmitActionSpec(editingMenuItem: Option<MenuItem>, data: MenuItemForm)
    ensures SubmitAction(editingMenuItem, data).Update? <==> editingMenuItem.Some?
    ensures SubmitAction(editingMenuItem, data).Update? ==>
      SubmitAction(editingMenuItem, data).id == editingMenuItem.value.id
    ensures SubmitAction(editingMenuItem, data).data == data
  {
  }

  /** The page state that its handlers update. `defaults` are the values the
      form library restores on `form.reset()`: the `useForm` default values at
      first, replaced by the values of every `form.reset(values)` call. */
  class AdminMenusPage {
    var showDialog: bool
    var editingMenuItem: Option<MenuItem>
    var form: MenuItemForm
    var defaults: MenuItemForm
    var filterRestaurant: string

    constructor ()
      ensures !showDialog && editingMenuItem.None? && form == DefaultForm && defaults == DefaultForm
      ensures filterRestaurant == "all"
      ensures forall items :: Shown(Some(items)) == Some(items)
    {
      showDialog := false;
      editingMenuItem := None;
      form := DefaultForm;
      defaults := DefaultForm;
      filterRestaurant := "all";
      new;
      forall items ensures Shown(Some(items)) == Some(items) {
        FilterAllKeepsEverything(Some(items), "all");
      }
    }

    /** The items listed for the loaded list under the current filter. */
    function Shown(menuItems: Option<seq<MenuItem>>): Option<seq<MenuItem>>
      reads this
    {
      FilteredMenuItems(menuItems, filterRestaurant)
    }

    /** `form.reset(values)`: the form takes the values, which also become the
        values a later `form.reset()` restores. */
    method ResetTo(values: MenuItemForm)
      modifies this`form, this`defaults
      ensures form == values && defaults == values
    {
      form := values;
      defaults := values;
    }

    /** `form.reset()`: the form takes the stored default values. */
    method Reset()
      modifies this`form
      ensures form == defaults
    {
      form := defaults;
    }

    /** `handleOpenDialog`: editing an item fills the form from it, and those
        values become the stored defaults; adding clears the edited item and
        restores the stored defaults, which are the last edited item's values
        once any item has been edited. The dialog opens. */
    method OpenDialog(menuItem: Option<MenuItem>)
      modifies this`showDialog, this`editingMenuItem, this`form, this`defaults
      ensures showDialog
      ensures editingMenuItem == menuItem
      ensures menuItem.Some? ==> form == Prefill(menuItem.value) && defaults == Prefill(menuItem.value)
      ensures menuItem.None? ==> form == old(defaults) && defaults == old(defaults)
    {
      if menuItem.Some? {
        editingMenuItem := menuItem;
        ResetTo(Prefill(menuItem.value));
      } else {
        editingMenuItem := None;
        Reset();
      }
      showDialog := true;
    }

    /** `onSubmit`: the request sent for the submitted values; the page state
        is not changed. */
    method Submit(data: MenuItemForm) returns (request: Mutation)
      ensures request.data == data
      ensures request.Update? <==> editingMenuItem.Some?
      ensures request.Update? ==> request.id == editingMenuItem.value.id
    {
      request := SubmitAction(editingMenuItem, data);
    }

    /** A successful create closes the dialog and resets the form to the
        stored defaults. */
    method CreateSucceeded()
      modifies this`showDialog, this`form
      ensures !showDialog && form == defaults
    {
      showDialog := false;
      Reset();
    }

    /** A successful update closes the dialog, forgets the edited item and
        resets the form to the stored defaults. */
    method UpdateSucceeded()
      modifies this`showDialog, this`editingMenuItem, this`form
      ensures !showDialog && editingMenuItem.None? && form == defaults
    {
      showDialog := false;
      editingMenuItem := None;
      Reset();
    }
  }

  /** Editing an item, saving it, and then opening the dialog to add a new
      item shows the add form filled with the edited item's values rather
      than the `useForm` defaults. */
  method AddAfterEdit(page: AdminMenusPage, item: MenuItem) returns (request: Mutation)
    modifies page
    ensures request == Update(item.id, Prefill(item))
    ensures page.showDialog && page.editingMenuItem.None?
    ensures page.form == Prefill(item)
  {
    page.OpenDialog(Some(item));
    request := page.Submit(page.form);
    page.UpdateSucceeded();
    page.OpenDialog(None);
  }
}
