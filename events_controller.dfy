/**
 * The event actions: creating, cancelling and editing an event, which keep
 * the event table, the organizer's `OrganizedByUser` and the category's
 * `Events` in step, and the read-only details, list and page queries. The
 * acting user is a parameter; so are the values the source draws from
 * outside the model (the new `Guid`, the clock, the uploaded cover's URL and
 * the request's model state).
 */
module EventsController {
  import opened Wrappers
  import opened Lists
  import opened Paging
  import opened Entities
  import opened Responses
  import opened ModelUtils

  const NotOwner := "You do not own this resource."
  const InvalidCategory := "Invalid category"
  const CategoryNotFound := "Specified category not found"

  /** The response body of GetEvent. */
  datatype EventDetailsDto = EventDetailsDto(
    id: Guid,
    title: string,
    dateAndTime: int,
    description: Option<string>,
    price: real,
    coverUrl: Option<string>,
    location: Coordinates,
    organizerId: UserId,
    numberOfSubscribers: nat,
    categoryName: string,
    categoryId: CategoryId,
    dateAdded: int)

  /**
   * CreateEvent: an invalid form is rejected with its error text, an unknown
   * category with "Invalid category"; otherwise a fresh event with the new id,
   * the form's fields, no attendees and the acting user as organizer is
   * appended to its category, to the user's organized events and to the
   * table. `coverUrl` is what the blob upload returned (None without a file).
   */
  method CreateEvent(
    context: ApplicationDbContext, user: ApplicationUser, data: CreateEditEventDto,
    modelState: seq<ModelStateEntry>, newId: Guid, coverUrl: Option<string>, now: int)
    returns (r: Response<Guid>, ghost e: Event?)
    requires context.Valid() && user in context.users.Values
    requires context.FindEvent(newId) == null
    modifies context`events, user`organizedByUser, context.CategoriesWithId(data.categoryId)`events
    ensures context.Valid()
    ensures old(context.Consistent()) ==> context.Consistent()
    ensures !NoErrors(modelState) ==> r == BadRequest(Lines(Messages(modelState)))
    ensures NoErrors(modelState) && context.FindCategory(data.categoryId) == null ==> r == BadRequest(InvalidCategory)
    ensures r.Created? <==> NoErrors(modelState) && context.FindCategory(data.categoryId) != null
    ensures r.Created? ==>
      var c := context.FindCategory(data.categoryId);
      && r == Created(newId) && e != null && fresh(e) && context.FindEvent(newId) == e
      && e.id == newId && e.organizer == user && e.category == c && e.dateAdded == now
      && HasForm(e, data) && e.coverPhoto == coverUrl && e.attendees == [] && e.banList == []
      && context.events == old(context.events) + [e]
      && user.organizedByUser == old(user.organizedByUser) + [e]
      && c.events == old(c.events) + [e]
    ensures !r.Created? ==> unchanged(context) && unchanged(user) && unchanged(context.CategoriesWithId(data.categoryId))
  {
    e := null;
    if !NoErrors(modelState) {
      var errors := GetModelErrors(modelState);
      return BadRequest(errors), e;
    }
    var category := context.FindCategory(data.categoryId);
    if category == null {
      return BadRequest(InvalidCategory), e;
    }
    var resource := Publish(context, user, category, data, newId, coverUrl, now);
    e := resource;
    r := Created(newId);
  }

  /** The object initializer, the cover and the three `Add`s of CreateEvent. */
  method Publish(
    context: ApplicationDbContext, user: ApplicationUser, category: EventCategory, data: CreateEditEventDto,
    newId: Guid, coverUrl: Option<string>, now: int)
    returns (e: Event)
    requires context.Valid() && user in context.users.Values && category in context.categories.Values
    requires context.FindEvent(newId) == null
    modifies context`events, user`organizedByUser, category`events
    ensures context.Valid()
    ensures old(context.Consistent()) ==> context.Consistent()
    ensures fresh(e) && context.FindEvent(newId) == e
    ensures e.id == newId && e.organizer == user && e.category == category && e.dateAdded == now
    ensures HasForm(e, data) && e.coverPhoto == coverUrl && e.attendees == [] && e.banList == []
    ensures context.events == old(context.events) + [e]
    ensures user.organizedByUser == old(user.organizedByUser) + [e]
    ensures category.events == old(category.events) + [e]
  {
    e := new Event(newId, data, user, category, now);
    category.events := category.events + [e];
    e.SetCover(coverUrl);
    user.organizedByUser := user.organizedByUser + [e];
    context.events := context.events + [e];
    assert HasForm(e, data) && e.coverPhoto == coverUrl;
    FoundAtEnd(old(context.events), e);
    context.CreateStep(e, user, category);
  }

  /** Looking up the id of an event appended to a table that lacked it finds that event. */
  lemma {:induction false} FoundAtEnd(s: seq<Event>, e: Event)
    requires forall x :: x in s ==> x.id != e.id
    ensures FindById(s + [e], e.id) == e
  {
    if s != [] {
      assert (s + [e])[1..] == s[1..] + [e];
      FoundAtEnd(s[1..], e);
    }
  }

  /**
   * CancelEvent: the organizer cancels an event, which leaves the table, the
   * organizer's organized events and the category's events. The ownership
   * check comes before the existence check.
   */
  method CancelEvent(context: ApplicationDbContext, user: ApplicationUser, id: Guid) returns (r: Response<()>)
    requires context.Valid() && user in context.users.Values
    modifies context`events, context.OrganizersOf(id)`organizedByUser, context.CategoriesOf(id)`events
    ensures context.Valid()
    ensures old(context.Consistent()) ==> context.Consistent()
    ensures var e := old(context.FindEvent(id));
      if e != null && user.id != e.organizer.id then r == Unauthorized(NotOwner)
      else if e == null then r == NotFound("")
      else
        && r == NoContent
        && context.events == Remove<Event>(old(context.events), e)
        && e.organizer.organizedByUser == Remove<Event>(old(e.organizer.organizedByUser), e)
        && e.category.events == Remove<Event>(old(e.category.events), e)
        && e !in context.events && e !in e.organizer.organizedByUser && e !in e.category.events
        && context.FindEvent(id) == null
    ensures !r.NoContent? ==> unchanged(context) && unchanged(context.OrganizersOf(id)) && unchanged(context.CategoriesOf(id))
  {
    var e := context.FindEvent(id);
    if e != null && user.id != e.organizer.id {
      return Unauthorized(NotOwner);
    }
    if e == null {
      return NotFound("");
    }
    Withdraw(context, e);
    r := NoContent;
  }

  /**
   * The three `Remove`s of CancelEvent. The category is the event's own:
   * looking it up again by its id finds the same object in a keyed context.
   */
  method Withdraw(context: ApplicationDbContext, e: Event)
    requires context.Valid() && e in context.events
    modifies context`events, e.organizer`organizedByUser, e.category`events
    ensures context.Valid()
    ensures old(context.Consistent()) ==> context.Consistent()
    ensures context.events == Remove(old(context.events), e)
    ensures e.organizer.organizedByUser == Remove(old(e.organizer.organizedByUser), e)
    ensures e.category.events == Remove(old(e.category.events), e)
    ensures e !in context.events && e !in e.organizer.organizedByUser && e !in e.category.events
    ensures forall x :: x in context.events ==> x.id != e.id
  {
    context.events := Remove(context.events, e);
    e.organizer.organizedByUser := Remove(e.organizer.organizedByUser, e);
    var category := e.category;
    category.events := Remove(category.events, e);
    context.CancelStep(e);
  }

  /**
   * EditEvent: after the ownership, existence, category and form checks, in
   * that order, the event moves from its category's list to the end of the
   * new category's list (the same list when the category is unchanged) and
   * takes the form's fields.
   */
  method EditEvent(
    context: ApplicationDbContext, user: ApplicationUser, id: Guid, data: CreateEditEventDto,
    modelState: seq<ModelStateEntry>)
    returns (r: Response<Event>)
    requires context.Valid() && user in context.users.Values
    // Only the form's fields and the category change: the cover, the
    // organizer, the attendees and the bans stay as they were.
    modifies context.EventsWithId(id)`title, context.EventsWithId(id)`location
    modifies context.EventsWithId(id)`dateAndTime, context.EventsWithId(id)`price
    modifies context.EventsWithId(id)`description, context.EventsWithId(id)`category
    modifies context.CategoriesOf(id)`events, context.CategoriesWithId(data.categoryId)`events
    ensures var e := context.FindEvent(id);
      var c := context.FindCategory(data.categoryId);
      if e != null && user.id != old(e.organizer.id) then r == Unauthorized(NotOwner)
      else if e == null then r == NotFound("")
      else if c == null then r == BadRequest(CategoryNotFound)
      else if !NoErrors(modelState) then r == BadRequest(Lines(Messages(modelState)))
      else
        r == Ok(e) && Revised(e, old(e.category), c, data)
    ensures !r.Ok? ==>
      && unchanged(context.EventsWithId(id)) && unchanged(context.CategoriesOf(id))
      && unchanged(context.CategoriesWithId(data.categoryId))
    ensures context.Valid()
    ensures old(context.Consistent()) ==> context.Consistent()
  {
    var e := context.FindEvent(id);
    var newCategory := context.FindCategory(data.categoryId);
    if e != null && user.id != e.organizer.id {
      return Unauthorized(NotOwner);
    }
    if e == null {
      return NotFound("");
    }
    if newCategory == null {
      return BadRequest(CategoryNotFound);
    }
    if !NoErrors(modelState) {
      var errors := GetModelErrors(modelState);
      return BadRequest(errors);
    }
    Revise(context, e, newCategory, data);
    r := Ok(e);
  }

  /**
   * The outcome of moving `e` from category `from` to `to`: the new
   * category, and `e` off the old list and at the end of the new one
   * (Remove then Add on the same list when the category stays).
   */
  twostate predicate Moved(e: Event, from: EventCategory, to: EventCategory)
    reads e`category, from`events, to`events
  {
    && e.category == to
    && |to.events| > 0 && to.events[|to.events| - 1] == e
    && if from == to then to.events == Remove(old(to.events), e) + [e]
       else
         && to.events == old(to.events) + [e]
         && from.events == Remove(old(from.events), e)
         && e !in from.events
  }

  /** The outcome of a successful edit: the move, and the form's fields. */
  twostate predicate Revised(e: Event, from: EventCategory, to: EventCategory, data: CreateEditEventDto)
    reads e, from`events, to`events
  {
    HasForm(e, data) && Moved(e, from, to)
  }

  /** The category move and the field assignments of EditEvent. */
  method Revise(context: ApplicationDbContext, e: Event, to: EventCategory, data: CreateEditEventDto)
    requires context.Valid() && e in context.events && to in context.categories.Values
    modifies e`title, e`location, e`dateAndTime, e`price, e`description, e`category
    modifies e.category`events, to`events
    ensures context.Valid()
    ensures old(context.Consistent()) ==> context.Consistent()
    ensures Revised(e, old(e.category), to, data)
  {
    Recategorise(context, e, to);
    Fill(context, e, data);
  }

  /** The field assignments of EditEvent touch none of the lists the invariants are about. */
  method Fill(context: ApplicationDbContext, e: Event, data: CreateEditEventDto)
    requires context.Valid() && e in context.events
    modifies e`title, e`location, e`dateAndTime, e`price, e`description
    ensures context.Valid()
    ensures old(context.Consistent()) ==> context.Consistent()
    ensures HasForm(e, data)
  {
    e.Apply(data);
    context.OwnedFrame();
    context.CategorisedFrame();
    context.MembersFrame();
    if old(context.Consistent()) {
      context.ConsistentFrame();
    }
  }

  /** The `Remove`, `Add` and assignment that move an event to another category. */
  method Recategorise(context: ApplicationDbContext, e: Event, to: EventCategory)
    requires context.Valid() && e in context.events && to in context.categories.Values
    modifies e`category, e.category`events, to`events
    ensures context.Valid()
    ensures old(context.Consistent()) ==> context.Consistent()
    ensures Moved(e, old(e.category), to)
  {
    var from := e.category;
    from.events := Remove(from.events, e);
    to.events := to.events + [e];
    e.category := to;
    context.OwnedFrame();
    context.MoveStep(e, from, to);
    context.MembersFrame();
    if old(context.Consistent()) {
      context.ConsistentFrame();
    }
    if from != to {
      RemoveDistinct(old(from.events), e);
    }
  }

  /** GetEvent: the event's details, with the number of its attendees. */
  method GetEvent(context: ApplicationDbContext, id: Guid) returns (r: Response<EventDetailsDto>)
    requires context.Keyed()
    ensures context.FindEvent(id) == null <==> r == NotFound("")
    ensures r.Ok? || r == NotFound("")
    ensures r.Ok? ==>
      var e := context.FindEvent(id);
      && e != null && r.value.id == id && r.value.numberOfSubscribers == |e.attendees|
      && r.value.title == e.title && r.value.dateAndTime == e.dateAndTime
      && r.value.description == e.description && r.value.price == e.price
      && r.value.coverUrl == e.coverPhoto && r.value.location == e.location
      && r.value.organizerId == e.organizer.id && r.value.categoryId == e.category.id
      && r.value.categoryName == e.category.name && r.value.dateAdded == e.dateAdded
  {
    var e := context.FindEvent(id);
    if e == null {
      return NotFound("");
    }
    var data := EventDetailsDto(
      e.id, e.title, e.dateAndTime, e.description, e.price, e.coverPhoto, e.location,
      e.organizer.id, |e.attendees|, e.category.name, e.category.id, e.dateAdded);
    r := Ok(data);
  }

  /** GetEventsList: the id of every stored event, once each, in table order. */
  method GetEventsList(context: ApplicationDbContext) returns (r: Response<seq<Guid>>)
    ensures r.Ok? && |r.value| == |context.events|
    ensures forall k :: 0 <= k < |context.events| ==> r.value[k] == context.events[k].id
    ensures forall x :: x in context.events ==> x.id in r.value
    ensures context.Keyed() ==> Distinct(r.value)
  {
    var resource := context.events;
    var data := [];
    for i := 0 to |resource|
      invariant |data| == i
      invariant forall k :: 0 <= k < i ==> data[k] == resource[k].id
    {
      data := data + [resource[i].id];
    }
    assert data == Ids(resource, EventKey);
    if context.Keyed() {
      KeyedIdsDistinct(context);
    }
    r := Ok(data);
  }

  /** In a keyed context the table's ids are all different. */
  lemma KeyedIdsDistinct(context: ApplicationDbContext)
    requires context.Keyed()
    ensures Distinct(Ids(context.events, EventKey))
  {
    var ids := Ids(context.events, EventKey);
    forall i, j | 0 <= i < j < |ids| ensures ids[i] != ids[j] {
      assert context.events[i] != context.events[j];
    }
  }

  /** GetEventsPage: the ids of one page of the table. */
  method GetEventsPage(context: ApplicationDbContext, startIndex: Int32, endIndex: Int32) returns (r: Response<seq<Guid>>)
    ensures match Page(context.events, startIndex, endIndex)
      case None => r == Thrown
      case Some(page) => r == Ok(Ids(page, EventKey))
  {
    var resource := context.events;
    var range := Page(resource, startIndex, endIndex);
    if range.None? {
      return Thrown;
    }
    var data := [];
    for i := 0 to |range.value|
      invariant |data| == i
      invariant forall k :: 0 <= k < i ==> data[k] == range.value[k].id
    {
      data := data + [range.value[i].id];
    }
    assert data == Ids(range.value, EventKey);
    r := Ok(data);
  }

  /** GetEventsInCategoryPage: one page of the ids of a category's events. */
  method GetEventsInCategoryPage(context: ApplicationDbContext, categoryId: CategoryId, startIndex: Int32, endIndex: Int32)
    returns (r: Response<seq<Guid>>)
    requires context.Keyed()
    ensures context.FindCategory(categoryId) == null ==> r == NotFound("")
    ensures context.FindCategory(categoryId) != null ==>
      match Page(Ids(context.FindCategory(categoryId).events, EventKey), startIndex, endIndex)
      case None => r == Thrown
      case Some(page) => r == Ok(page)
  {
    var category := context.FindCategory(categoryId);
    if category == null {
      return NotFound("");
    }
    var resource := Ids(category.events, EventKey);
    var range := Page(resource, startIndex, endIndex);
    if range.None? {
      return Thrown;
    }
    r := Ok(range.value);
  }
}
