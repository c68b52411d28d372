/**
 * The entities the two controllers work on and the database context that
 * holds them. An entity is an object whose list-valued navigation
 * properties the controllers change in place with `Add` and `Remove`; the
 * context's three tables hold those same objects (the change tracker keeps
 * one object per key), so a user found in `Event.attendees` is the very
 * object stored under its id in `users`.
 */
module Entities {
  import opened Wrappers
  import opened Lists

  /** Event ids: `Guid`s, compared only for equality. */
  type Guid = nat
  type UserId = string
  type CategoryId = int

  datatype Coordinates = Coordinates(longitude: real, latitude: real)

  /** The event form of CreateEvent and EditEvent, without the cover file. */
  datatype CreateEditEventDto = CreateEditEventDto(
    title: string,
    dateAndTime: int,
    description: Option<string>,
    price: real,
    location: Coordinates,
    categoryId: CategoryId)

  class ApplicationUser {
    const id: UserId
    var organizedByUser: seq<Event>
    var attendedByUser: seq<Event>
    var savedEvents: seq<Event>

    constructor (id: UserId)
      ensures this.id == id
      ensures organizedByUser == [] && attendedByUser == [] && savedEvents == []
    {
      this.id := id;
      organizedByUser, attendedByUser, savedEvents := [], [], [];
    }
  }

  class EventCategory {
    const id: CategoryId
    const name: string
    var events: seq<Event>

    constructor (id: CategoryId, name: string)
      ensures this.id == id && this.name == name && events == []
    {
      this.id, this.name := id, name;
      events := [];
    }
  }

  class Event {
    const id: Guid
    var title: string
    var dateAndTime: int
    var description: Option<string>
    var price: real
    var location: Coordinates
    var coverPhoto: Option<string>
    var organizer: ApplicationUser
    var attendees: seq<ApplicationUser>
    var banList: seq<ApplicationUser>
    var category: EventCategory
    const dateAdded: int

    /** The object initializer of CreateEvent: the form's fields, no attendees, the acting user as organizer. */
    constructor (id: Guid, data: CreateEditEventDto, organizer: ApplicationUser, category: EventCategory, dateAdded: int)
      ensures this.id == id && this.dateAdded == dateAdded
      ensures title == data.title && dateAndTime == data.dateAndTime && description == data.description
      ensures price == data.price && location == data.location && coverPhoto == None
      ensures this.organizer == organizer && this.category == category
      ensures attendees == [] && banList == []
    {
      this.id, this.dateAdded := id, dateAdded;
      title, dateAndTime, description := data.title, data.dateAndTime, data.description;
      price, location, coverPhoto := data.price, data.location, None;
      this.organizer, this.category := organizer, category;
      attendees, banList := [], [];
    }

    /** The cover upload of CreateEvent: a cover is set only when a file was uploaded. */
    method SetCover(url: Option<string>)
      modifies this`coverPhoto
      ensures url.Some? ==> coverPhoto == url
      ensures url.None? ==> coverPhoto == old(coverPhoto)
    {
      if url.Some? {
        coverPhoto := url;
      }
    }

    /** The field assignments of EditEvent: the form's values replace the old ones. */
    method Apply(data: CreateEditEventDto)
      modifies this`title, this`location, this`dateAndTime, this`price, this`description
      ensures HasForm(this, data)
    {
      title := data.title;
      location := data.location;
      dateAndTime := data.dateAndTime;
      price := data.price;
      description := data.description;
    }
  }

  /** The fields CreateEvent and EditEvent copy from the form hold the form's values. */
  ghost predicate HasForm(e: Event, data: CreateEditEventDto)
    reads e`title, e`dateAndTime, e`description, e`price, e`location
  {
    && e.title == data.title && e.dateAndTime == data.dateAndTime && e.description == data.description
    && e.price == data.price && e.location == data.location
  }

  /**
   * The table lookup `SingleOrDefault(e => e.Id == id)` over a list of events.
   * `SingleOrDefault` throws when two rows match; the primary key rules that
   * out (`Keyed`), and under it the first match found here is the only one.
   */
  function FindById(s: seq<Event>, id: Guid): (e: Event?)
    ensures e != null ==> e in s && e.id == id
    ensures e == null ==> forall x :: x in s ==> x.id != id
  {
    if s == [] then null else if s[0].id == id then s[0] else FindById(s[1..], id)
  }

  /** The keys of a list, in order (`Select(x => x.Id)`). */
  function Ids<T, K>(s: seq<T>, key: T -> K): (ids: seq<K>)
    ensures |ids| == |s| && forall k :: 0 <= k < |s| ==> ids[k] == key(s[k])
  {
    seq(|s|, k requires 0 <= k < |s| => key(s[k]))
  }

  /** A user's key, `u => u.Id`. */
  function UserKey(u: ApplicationUser): UserId { u.id }

  /** An event's key, `e => e.Id`. */
  function EventKey(e: Event): Guid { e.id }

  /** A key under which a map stores a given value. */
  lemma KeyOf<K, V>(m: map<K, V>, v: V) returns (k: K)
    requires v in m.Values
    ensures k in m && m[k] == v
  {
    k :| k in m && m[k] == v;
  }

  class ApplicationDbContext {
    /** The Events table, in table order. */
    var events: seq<Event>
    /** The users table, by user id. */
    var users: map<UserId, ApplicationUser>
    /** The Categories table, by category id. */
    var categories: map<CategoryId, EventCategory>

    function FindEvent(id: Guid): (e: Event?)
      reads this
      ensures e != null ==> e in events && e.id == id
      ensures e == null ==> forall x :: x in events ==> x.id != id
    {
      FindById(events, id)
    }

    function FindUser(id: UserId): (u: ApplicationUser?)
      reads this
      ensures u != null <==> id in users
      ensures u != null ==> u == users[id]
      ensures Keyed() ==> (u != null ==> u in users.Values && u.id == id)
      ensures Keyed() ==> (u == null ==> forall v: ApplicationUser :: v in users.Values ==> v.id != id)
    {
      if id in users then users[id]
      else
        UserNotStored(id);
        null
    }

    function FindCategory(id: CategoryId): (c: EventCategory?)
      reads this
      ensures c != null <==> id in categories
      ensures c != null ==> c == categories[id]
      ensures Keyed() ==> (c != null ==> c in categories.Values && c.id == id)
      ensures Keyed() ==> (c == null ==> forall v: EventCategory :: v in categories.Values ==> v.id != id)
    {
      if id in categories then categories[id]
      else
        CategoryNotStored(id);
        null
    }

    /** Under the key rule, an id that is no key of the users table is no stored user's id. */
    lemma UserNotStored(id: UserId)
      ensures Keyed() && id !in users ==> forall v: ApplicationUser :: v in users.Values ==> v.id != id
    {
      if Keyed() && id !in users {
        forall v: ApplicationUser | v in users.Values ensures v.id != id {
          var k := KeyOf(users, v);
        }
      }
    }

    /** Under the key rule, an id that is no key of the Categories table is no stored category's id. */
    lemma CategoryNotStored(id: CategoryId)
      ensures Keyed() && id !in categories ==> forall v: EventCategory :: v in categories.Values ==> v.id != id
    {
      if Keyed() && id !in categories {
        forall v: EventCategory | v in categories.Values ensures v.id != id {
          var k := KeyOf(categories, v);
        }
      }
    }

    // The objects an action may change, named by the ids it is given.

    ghost function EventsWithId(id: Guid): set<Event>
      reads this
    {
      set e | e in events && e.id == id
    }

    ghost function UsersWithId(id: UserId): set<ApplicationUser>
      reads this
    {
      if id in users then {users[id]} else {}
    }

    ghost function CategoriesWithId(id: CategoryId): set<EventCategory>
      reads this
    {
      if id in categories then {categories[id]} else {}
    }

    ghost function OrganizersOf(id: Guid): set<ApplicationUser>
      reads this, events
    {
      set e | e in events && e.id == id :: e.organizer
    }

    ghost function CategoriesOf(id: Guid): set<EventCategory>
      reads this, events
    {
      set e | e in events && e.id == id :: e.category
    }

    /** Every table row is found under its own key, and event ids are unique. */
    ghost predicate Keyed()
      reads this
    {
      && Distinct(events)
      && (forall x, y :: x in events && y in events && x.id == y.id ==> x == y)
      && (forall k :: k in users ==> users[k].id == k)
      && (forall k :: k in categories ==> categories[k].id == k)
    }

    /** `Event.Organizer` and `ApplicationUser.OrganizedByUser` are the two ends of one relation. */
    ghost predicate Owned()
      reads this, events`organizer, users.Values`organizedByUser
    {
      && (forall e :: e in events ==> e.organizer in users.Values && e in e.organizer.organizedByUser)
      && (forall u, e :: u in users.Values && e in u.organizedByUser ==> e in events && e.organizer == u)
      && (forall u :: u in users.Values ==> Distinct(u.organizedByUser))
    }

    /** `Event.Category` and `EventCategory.Events` are the two ends of one relation. */
    ghost predicate Categorised()
      reads this, events`category, categories.Values`events
    {
      && (forall e :: e in events ==> e.category in categories.Values && e in e.category.events)
      && (forall c, e :: c in categories.Values && e in c.events ==> e in events && e.category == c)
      && (forall c :: c in categories.Values ==> Distinct(c.events))
    }

    /**
     * Attendees and banned users are stored users; the lists whose `Add` is
     * guarded by a `Contains` check hold no duplicates.
     */
    ghost predicate Members()
      reads this, events`attendees, events`banList, users.Values`attendedByUser, users.Values`savedEvents
    {
      && (forall e, u :: e in events && u in e.attendees ==> u in users.Values)
      && (forall e, u :: e in events && u in e.banList ==> u in users.Values)
      && (forall e :: e in events ==> Distinct(e.banList))
      && (forall u :: u in users.Values ==> Distinct(u.attendedByUser) && Distinct(u.savedEvents))
    }

    // An action that leaves a relation's fields alone keeps that relation's invariant.

    twostate lemma OwnedFrame()
      requires old(Owned()) && unchanged(this)
      requires unchanged(events`organizer) && unchanged(users.Values`organizedByUser)
      ensures Owned()
    {
    }

    twostate lemma CategorisedFrame()
      requires old(Categorised()) && unchanged(this)
      requires unchanged(events`category) && unchanged(categories.Values`events)
      ensures Categorised()
    {
    }

    /**
     * An action that changes at most the attendee and ban lists of `e` and
     * the attended and saved events of `u` keeps Members when it keeps those
     * lists well formed.
     */
    twostate lemma MembersStep(new e: Event, new u: ApplicationUser)
      requires old(Members()) && unchanged(this)
      requires forall x :: x in events && x != e ==> x.attendees == old(x.attendees) && x.banList == old(x.banList)
      requires forall v: ApplicationUser :: v in users.Values && v != u ==>
        v.attendedByUser == old(v.attendedByUser) && v.savedEvents == old(v.savedEvents)
      requires e in events ==>
        && (forall v :: v in e.attendees ==> v in users.Values)
        && (forall v :: v in e.banList ==> v in users.Values)
        && Distinct(e.banList)
      requires u in users.Values ==> Distinct(u.attendedByUser) && Distinct(u.savedEvents)
      ensures Members()
    {
    }

    /**
     * An action that changes the attendance of `u` at `e` on both sides at
     * once, changes no other attendance and no other ban list, and leaves `e`
     * without duplicate or banned attendees, keeps the attendance invariant.
     */
    twostate lemma ConsistentStep(new e: Event, new u: ApplicationUser)
      requires old(allocated(e)) && old(allocated(u))
      requires old(Consistent()) && unchanged(this)
      requires forall x :: x in events && x != e ==> x.attendees == old(x.attendees) && x.banList == old(x.banList)
      requires forall v: ApplicationUser :: v in users.Values && v != u ==> v.attendedByUser == old(v.attendedByUser)
      requires forall v :: v != u ==> (v in e.attendees <==> v in old(e.attendees))
      requires forall x :: x != e ==> (x in u.attendedByUser <==> x in old(u.attendedByUser))
      requires u in e.attendees <==> e in u.attendedByUser
      requires Distinct(e.attendees) && forall v :: v in e.attendees ==> v !in e.banList
      ensures Consistent()
    {
    }

    twostate lemma MembersFrame()
      requires old(Members()) && unchanged(this)
      requires unchanged(events`attendees) && unchanged(events`banList)
      requires unchanged(users.Values`attendedByUser) && unchanged(users.Values`savedEvents)
      ensures Members()
    {
    }

    twostate lemma ConsistentFrame()
      requires old(Consistent()) && unchanged(this)
      requires unchanged(events`attendees) && unchanged(events`banList) && unchanged(users.Values`attendedByUser)
      ensures Consistent()
    {
    }

    /**
     * Appending a fresh event with a new id, no attendees and no bans to the
     * table, to its organizer's list and to its category's list keeps both
     * invariants.
     */
    twostate lemma CreateStep(new e: Event, new u: ApplicationUser, new c: EventCategory)
      requires old(allocated(u)) && old(allocated(c))
      requires old(Valid()) && !old(allocated(e))
      requires events == old(events) + [e] && users == old(users) && categories == old(categories)
      requires forall x :: x in old(events) ==> x.id != e.id
      requires unchanged(old(events))
      requires e.organizer == u && u in users.Values && e.category == c && c in categories.Values
      requires e.attendees == [] && e.banList == []
      requires u.organizedByUser == old(u.organizedByUser) + [e]
      requires c.events == old(c.events) + [e]
      requires forall v: ApplicationUser :: v in users.Values && v != u ==> v.organizedByUser == old(v.organizedByUser)
      requires forall d :: d in categories.Values && d != c ==> d.events == old(d.events)
      requires unchanged(users.Values`attendedByUser, users.Values`savedEvents)
      ensures Valid()
      ensures old(Consistent()) ==> Consistent()
    {
      AppendDistinct(old(events), e);
      assert Keyed();
      CreateOwned(e, u);
      CreateCategorised(e, c);
      CreateMembers(e);
      if old(Consistent()) {
        CreateConsistent(e);
      }
    }

    twostate lemma CreateOwned(new e: Event, new u: ApplicationUser)
      requires old(allocated(u))
      requires old(Owned()) && !old(allocated(e))
      requires events == old(events) + [e] && users == old(users)
      requires forall x :: x in old(events) ==> x.organizer == old(x.organizer)
      requires e.organizer == u && u in users.Values
      requires u.organizedByUser == old(u.organizedByUser) + [e]
      requires forall v: ApplicationUser :: v in users.Values && v != u ==> v.organizedByUser == old(v.organizedByUser)
      ensures Owned()
    {
      AppendDistinct(old(u.organizedByUser), e);
    }

    twostate lemma CreateCategorised(new e: Event, c: EventCategory)
      requires old(Categorised()) && !old(allocated(e))
      requires events == old(events) + [e] && categories == old(categories)
      requires forall x :: x in old(events) ==> x.category == old(x.category)
      requires e.category == c && c in categories.Values
      requires c.events == old(c.events) + [e]
      requires forall d :: d in categories.Values && d != c ==> d.events == old(d.events)
      ensures Categorised()
    {
      AppendDistinct(old(c.events), e);
    }

    twostate lemma CreateMembers(new e: Event)
      requires old(Members()) && events == old(events) + [e] && users == old(users)
      requires forall x :: x in old(events) ==> x.attendees == old(x.attendees) && x.banList == old(x.banList)
      requires e.attendees == [] && e.banList == []
      requires forall v: ApplicationUser :: v in users.Values ==>
        v.attendedByUser == old(v.attendedByUser) && v.savedEvents == old(v.savedEvents)
      ensures Members()
    {
    }

    twostate lemma CreateConsistent(new e: Event)
      requires old(Consistent()) && !old(allocated(e))
      requires events == old(events) + [e] && users == old(users)
      requires forall x :: x in old(events) ==> x.attendees == old(x.attendees) && x.banList == old(x.banList)
      requires e.attendees == [] && e.banList == []
      requires forall v: ApplicationUser :: v in users.Values ==> v.attendedByUser == old(v.attendedByUser)
      ensures Consistent()
    {
    }

    /**
     * Removing an event from the table, from its organizer's list and from
     * its category's list keeps both invariants; the event is then in none
     * of the three.
     */
    twostate lemma CancelStep(e: Event)
      requires old(Valid()) && old(e in events)
      requires events == Remove(old(events), e) && users == old(users) && categories == old(categories)
      requires forall x :: x in old(events) ==> unchanged(x)
      requires e.organizer.organizedByUser == Remove(old(e.organizer.organizedByUser), e)
      requires e.category.events == Remove(old(e.category.events), e)
      requires forall v: ApplicationUser :: v in users.Values && v != e.organizer ==> v.organizedByUser == old(v.organizedByUser)
      requires forall d :: d in categories.Values && d != e.category ==> d.events == old(d.events)
      requires forall v: ApplicationUser :: v in users.Values ==>
        v.attendedByUser == old(v.attendedByUser) && v.savedEvents == old(v.savedEvents)
      ensures Valid()
      ensures old(Consistent()) ==> Consistent()
      ensures e !in events && e !in e.organizer.organizedByUser && e !in e.category.events
    {
      RemoveDistinct(old(events), e);
      assert Keyed();
      CancelOwned(e);
      CancelCategorised(e);
      assert Members();
      RemoveDistinct(old(e.category.events), e);
    }

    twostate lemma CancelOwned(e: Event)
      requires old(Owned()) && old(e in events) && users == old(users)
      requires old(Distinct(events)) && events == Remove(old(events), e)
      requires forall x :: x in old(events) ==> x.organizer == old(x.organizer)
      requires e.organizer.organizedByUser == Remove(old(e.organizer.organizedByUser), e)
      requires forall v: ApplicationUser :: v in users.Values && v != e.organizer ==> v.organizedByUser == old(v.organizedByUser)
      ensures Owned() && e !in e.organizer.organizedByUser
    {
      RemoveDistinct(old(events), e);
      RemoveDistinct(old(e.organizer.organizedByUser), e);
    }

    twostate lemma CancelCategorised(e: Event)
      requires old(Categorised()) && old(e in events) && categories == old(categories)
      requires old(Distinct(events)) && events == Remove(old(events), e)
      requires forall x :: x in old(events) ==> x.category == old(x.category)
      requires e.category.events == Remove(old(e.category.events), e)
      requires forall d :: d in categories.Values && d != e.category ==> d.events == old(d.events)
      ensures Categorised()
    {
      RemoveDistinct(old(events), e);
      RemoveDistinct(old(e.category.events), e);
    }

    /**
     * Moving an event from category `from` to category `to` (`Remove` from
     * the old list, then `Add` to the new one, which may be the same list)
     * keeps the category invariant.
     */
    twostate lemma MoveStep(new e: Event, new from: EventCategory, new to: EventCategory)
      requires old(allocated(e)) && old(allocated(from)) && old(allocated(to))
      requires old(Categorised()) && unchanged(this) && e in events
      requires from == old(e.category) && to in categories.Values && e.category == to
      requires forall x :: x in events && x != e ==> x.category == old(x.category)
      requires from == to ==> to.events == Remove(old(to.events), e) + [e]
      requires from != to ==> from.events == Remove(old(from.events), e) && to.events == old(to.events) + [e]
      requires forall d :: d in categories.Values && d != from && d != to ==> d.events == old(d.events)
      ensures Categorised()
    {
      RemoveDistinct(old(from.events), e);
      if from == to {
        AppendDistinct(Remove(old(to.events), e), e);
      } else {
        AppendDistinct(old(to.events), e);
      }
    }

    /** What every action, including KickUser as written, keeps. */
    ghost predicate Valid()
      reads this, events, users.Values, categories.Values
    {
      Keyed() && Owned() && Categorised() && Members()
    }

    /**
     * The attendee relation is two-sided (`Event.Attendees` with
     * `ApplicationUser.AttendedByUser`): a stored user attends a stored event
     * on one side exactly when they do on the other.
     */
    ghost predicate Paired()
      reads this, events`attendees, users.Values`attendedByUser
    {
      forall e, u :: e in events && u in users.Values ==> (u in e.attendees <==> e in u.attendedByUser)
    }

    /** The attendance invariant: paired, no one attends twice, and no banned user attends. */
    ghost predicate Consistent()
      reads this, events`attendees, events`banList, users.Values`attendedByUser
    {
      && Paired()
      && (forall e :: e in events ==> Distinct(e.attendees))
      && (forall e, u :: e in events && u in e.attendees ==> u !in e.banList)
    }
  }
}
