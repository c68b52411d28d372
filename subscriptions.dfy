/**
 * The subscription actions: joining and leaving an event, the organizer's
 * kick, ban and unban, saving an event, and the paged attendee list. Each
 * action runs a chain of guards, returns the first one that fails, and
 * otherwise adds to or removes from the lists on both sides of a relation.
 * The acting user is a parameter: it is the signed-in user, already looked
 * up in the users table.
 */
module SubscriptionsController {
  import opened Wrappers
  import opened Lists
  import opened Paging
  import opened Entities
  import opened Responses

  const Banned := "User is banned from attending this event."
  const AlreadySubscribed := "User already subscribed to event."
  const Subscribed := "User subscribed to event."
  const NotSubscribed := "User not subscribed to event."
  const Unsubscribed := "User unsubscribed from event."
  const NotOwner := "You do not own this event."
  const EventNotFound := "Event not found."
  const UserNotFound := "User not found."
  const Kicked := "User kicked from event."
  const OrganizerBan := "Organizer cannot be banned from event."
  const AlreadyBanned := "User already banned from event."
  const BannedNow := "User banned from event."
  const NotBanned := "User is not banned from event."
  const Unbanned := "User Unbanned from event."
  const AlreadySaved := "Event already saved by user."
  const Saved := "Event saved."
  const NotSaved := "Event not saved by user before."
  const Unsaved := "Event removed from user saved events list."

  /** SubscribersPage: the ids of one page of the event's attendees. */
  method GetSubscribersPage(context: ApplicationDbContext, eventId: Guid, startIndex: Int32, endIndex: Int32)
    returns (r: Response<seq<UserId>>)
    requires context.Keyed()
    ensures context.FindEvent(eventId) == null ==> r == NotFound("")
    ensures context.FindEvent(eventId) != null ==>
      match Page(context.FindEvent(eventId).attendees, startIndex, endIndex)
      case None => r == Thrown
      case Some(page) => r == Ok(Ids(page, UserKey))
  {
    var e := context.FindEvent(eventId);
    if e == null {
      return NotFound("");
    }
    var range := Page(e.attendees, startIndex, endIndex);
    if range.None? {
      return Thrown;
    }
    var subscribersList := [];
    for i := 0 to |range.value|
      invariant |subscribersList| == i
      invariant forall k :: 0 <= k < i ==> subscribersList[k] == range.value[k].id
    {
      subscribersList := subscribersList + [range.value[i].id];
    }
    assert subscribersList == Ids(range.value, UserKey);
    r := Ok(subscribersList);
  }

  /** Subscribe: the acting user joins the event unless banned or already attending. */
  method Subscribe(context: ApplicationDbContext, user: ApplicationUser, eventId: Guid) returns (r: Response<string>)
    requires context.Valid() && user in context.users.Values
    modifies context.EventsWithId(eventId)`attendees, user`attendedByUser
    ensures context.Valid()
    ensures old(context.Consistent()) ==> context.Consistent()
    ensures var e := context.FindEvent(eventId);
      if e == null then r == NotFound("")
      else if user in e.banList then r == Unauthorized(Banned)
      else if e in old(user.attendedByUser) then r == BadRequest(AlreadySubscribed)
      else
        && r == Ok(Subscribed)
        && e.attendees == old(e.attendees) + [user]
        && user.attendedByUser == old(user.attendedByUser) + [e]
    // A rejected call changes nothing; there is no capacity limit.
    ensures !r.Ok? ==> unchanged(context.EventsWithId(eventId)) && unchanged(user)
  {
    var e := context.FindEvent(eventId);
    if e == null {
      return NotFound("");
    }
    if user in e.banList {
      return Unauthorized(Banned);
    }
    if e in user.attendedByUser {
      return BadRequest(AlreadySubscribed);
    }
    Enroll(context, e, user);
    r := Ok(Subscribed);
  }

  /** Unsubscribe: the acting user leaves the event it attends. */
  method Unsubscribe(context: ApplicationDbContext, user: ApplicationUser, eventId: Guid) returns (r: Response<string>)
    requires context.Valid() && user in context.users.Values
    modifies context.EventsWithId(eventId)`attendees, user`attendedByUser
    ensures context.Valid()
    ensures old(context.Consistent()) ==> context.Consistent()
    ensures var e := context.FindEvent(eventId);
      if e == null then r == NotFound("")
      else if e !in old(user.attendedByUser) then r == BadRequest(NotSubscribed)
      else
        && r == Ok(Unsubscribed)
        && e.attendees == Remove(old(e.attendees), user)
        && user.attendedByUser == Remove<Event>(old(user.attendedByUser), e)
        && (old(context.Consistent()) ==> user !in e.attendees && e !in user.attendedByUser)
    ensures !r.Ok? ==> unchanged(context.EventsWithId(eventId)) && unchanged(user)
  {
    var e := context.FindEvent(eventId);
    if e == null {
      return NotFound("");
    }
    if e !in user.attendedByUser {
      return BadRequest(NotSubscribed);
    }
    Disenroll(context, e, user);
    r := Ok(Unsubscribed);
  }

  /**
   * KickUser as written: after the organizer check it removes the ACTING
   * user from the attendee list, while it removes the event from the
   * SUBJECT's attended events. When the organizer kicks somebody else the
   * subject stays an attendee of an event it no longer attends, and the
   * attendance relation is no longer paired.
   */
  method KickUser(context: ApplicationDbContext, user: ApplicationUser, subjectId: UserId, eventId: Guid)
    returns (r: Response<string>)
    requires context.Valid() && user in context.users.Values
    modifies context.EventsWithId(eventId)`attendees, context.UsersWithId(subjectId)`attendedByUser
    ensures context.Valid()
    ensures var e := context.FindEvent(eventId);
      var subject := context.FindUser(subjectId);
      if e != null && user.id != e.organizer.id then r == Unauthorized(NotOwner)
      else if e == null then r == NotFound(EventNotFound)
      else if subject == null then r == NotFound(UserNotFound)
      else if e !in old(subject.attendedByUser) then r == BadRequest(NotSubscribed)
      else
        && r == Ok(Kicked)
        && e.attendees == Remove(old(e.attendees), user)
        && subject.attendedByUser == Remove<Event>(old(subject.attendedByUser), e)
    ensures !r.Ok? ==> unchanged(context.EventsWithId(eventId)) && unchanged(context.UsersWithId(subjectId))
    // The defect: a successful kick of another user leaves the subject in
    // the attendee list of an event missing from its own list.
    ensures var kicked := context.FindEvent(eventId);
      var stranded := context.FindUser(subjectId);
      old(context.Consistent()) && r.Ok? && stranded != user ==>
        && stranded in kicked.attendees && kicked !in stranded.attendedByUser
        && !context.Paired()
  {
    var e := context.FindEvent(eventId);
    var subject := context.FindUser(subjectId);
    if e != null && user.id != e.organizer.id {
      return Unauthorized(NotOwner);
    }
    if e == null {
      return NotFound(EventNotFound);
    }
    if subject == null {
      return NotFound(UserNotFound);
    }
    if e !in subject.attendedByUser {
      return BadRequest(NotSubscribed);
    }
    KickEffect(context, e, user, subject);
    r := Ok(Kicked);
  }

  /** KickUser with the subject, not the acting user, removed from the attendees. */
  method KickUserCorrected(context: ApplicationDbContext, user: ApplicationUser, subjectId: UserId, eventId: Guid)
    returns (r: Response<string>)
    requires context.Valid() && user in context.users.Values
    modifies context.EventsWithId(eventId)`attendees, context.UsersWithId(subjectId)`attendedByUser
    ensures context.Valid()
    ensures old(context.Consistent()) ==> context.Consistent()
    ensures var e := context.FindEvent(eventId);
      var subject := context.FindUser(subjectId);
      if e != null && user.id != e.organizer.id then r == Unauthorized(NotOwner)
      else if e == null then r == NotFound(EventNotFound)
      else if subject == null then r == NotFound(UserNotFound)
      else if e !in old(subject.attendedByUser) then r == BadRequest(NotSubscribed)
      else
        && r == Ok(Kicked)
        && e.attendees == Remove<ApplicationUser>(old(e.attendees), subject)
        && subject.attendedByUser == Remove<Event>(old(subject.attendedByUser), e)
        && (old(context.Consistent()) ==> subject !in e.attendees && e !in subject.attendedByUser)
    ensures !r.Ok? ==> unchanged(context.EventsWithId(eventId)) && unchanged(context.UsersWithId(subjectId))
  {
    var e := context.FindEvent(eventId);
    var subject := context.FindUser(subjectId);
    if e != null && user.id != e.organizer.id {
      return Unauthorized(NotOwner);
    }
    if e == null {
      return NotFound(EventNotFound);
    }
    if subject == null {
      return NotFound(UserNotFound);
    }
    if e !in subject.attendedByUser {
      return BadRequest(NotSubscribed);
    }
    Disenroll(context, e, subject);
    r := Ok(Kicked);
  }

  /**
   * BanUser: the organizer bans another user; an attending subject is
   * removed from the event first.
   */
  method BanUser(context: ApplicationDbContext, user: ApplicationUser, subjectId: UserId, eventId: Guid)
    returns (r: Response<string>)
    requires context.Valid() && user in context.users.Values
    modifies context.EventsWithId(eventId)`attendees, context.EventsWithId(eventId)`banList
    modifies context.UsersWithId(subjectId)`attendedByUser
    ensures context.Valid()
    ensures old(context.Consistent()) ==> context.Consistent()
    ensures var e := context.FindEvent(eventId);
      var subject := context.FindUser(subjectId);
      if e != null && user.id != e.organizer.id then r == Unauthorized(NotOwner)
      else if e == null then r == NotFound(EventNotFound)
      else if subject == null then r == NotFound(UserNotFound)
      else if user.id == subject.id then r == BadRequest(OrganizerBan)
      else if subject in old(e.banList) then r == BadRequest(AlreadyBanned)
      else
        && r == Ok(BannedNow)
        && e.banList == old(e.banList) + [subject]
        && (if e in old(subject.attendedByUser) then
              && e.attendees == Remove<ApplicationUser>(old(e.attendees), subject)
              && subject.attendedByUser == Remove<Event>(old(subject.attendedByUser), e)
            else
              && e.attendees == old(e.attendees)
              && subject.attendedByUser == old(subject.attendedByUser))
        && (old(context.Consistent()) ==> subject !in e.attendees && e !in subject.attendedByUser)
    ensures !r.Ok? ==> unchanged(context.EventsWithId(eventId)) && unchanged(context.UsersWithId(subjectId))
  {
    var e := context.FindEvent(eventId);
    var subject := context.FindUser(subjectId);
    if e != null && user.id != e.organizer.id {
      return Unauthorized(NotOwner);
    }
    if e == null {
      return NotFound(EventNotFound);
    }
    if subject == null {
      return NotFound(UserNotFound);
    }
    if user.id == subject.id {
      return BadRequest(OrganizerBan);
    }
    if subject in e.banList {
      return BadRequest(AlreadyBanned);
    }
    if e in subject.attendedByUser {
      Disenroll(context, e, subject);
    }
    AddToBanList(context, e, subject);
    r := Ok(BannedNow);
  }

  /** The `Add` to the ban list of BanUser. */
  method AddToBanList(context: ApplicationDbContext, e: Event, subject: ApplicationUser)
    requires context.Valid() && e in context.events && subject in context.users.Values
    requires subject !in e.banList
    modifies e`banList
    ensures context.Valid()
    ensures old(context.Consistent()) && e !in subject.attendedByUser ==> context.Consistent()
    ensures e.banList == old(e.banList) + [subject]
  {
    ghost var wasConsistent := context.Consistent() && e !in subject.attendedByUser;
    AppendDistinct(e.banList, subject);
    e.banList := e.banList + [subject];
    context.OwnedFrame();
    context.CategorisedFrame();
    context.MembersStep(e, subject);
    if wasConsistent {
      context.ConsistentStep(e, subject);
    }
  }

  /** UnbanUser: the organizer lifts a ban. */
  method UnbanUser(context: ApplicationDbContext, user: ApplicationUser, subjectId: UserId, eventId: Guid)
    returns (r: Response<string>)
    requires context.Valid() && user in context.users.Values
    modifies context.EventsWithId(eventId)`banList
    ensures context.Valid()
    ensures old(context.Consistent()) ==> context.Consistent()
    ensures var e := context.FindEvent(eventId);
      var subject := context.FindUser(subjectId);
      if e != null && user.id != e.organizer.id then r == Unauthorized(NotOwner)
      else if e == null then r == NotFound(EventNotFound)
      else if subject == null then r == NotFound(UserNotFound)
      else if subject !in old(e.banList) then r == BadRequest(NotBanned)
      else
        && r == Ok(Unbanned)
        && e.banList == Remove<ApplicationUser>(old(e.banList), subject)
        && subject !in e.banList
    ensures !r.Ok? ==> unchanged(context.EventsWithId(eventId))
  {
    var e := context.FindEvent(eventId);
    var subject := context.FindUser(subjectId);
    if e != null && user.id != e.organizer.id {
      return Unauthorized(NotOwner);
    }
    if e == null {
      return NotFound(EventNotFound);
    }
    if subject == null {
      return NotFound(UserNotFound);
    }
    if subject !in e.banList {
      return BadRequest(NotBanned);
    }
    ghost var wasConsistent := context.Consistent();
    RemoveDistinct<ApplicationUser>(e.banList, subject);
    e.banList := Remove<ApplicationUser>(e.banList, subject);
    context.OwnedFrame();
    context.CategorisedFrame();
    context.MembersStep(e, subject);
    if wasConsistent {
      context.ConsistentStep(e, subject);
    }
    r := Ok(Unbanned);
  }

  /** SaveEvent: the acting user bookmarks an event. */
  method SaveEvent(context: ApplicationDbContext, user: ApplicationUser, eventId: Guid) returns (r: Response<string>)
    requires context.Valid() && user in context.users.Values
    modifies user`savedEvents
    ensures context.Valid()
    ensures old(context.Consistent()) ==> context.Consistent()
    ensures var e := context.FindEvent(eventId);
      if e == null then r == NotFound("")
      else if e in old(user.savedEvents) then r == BadRequest(AlreadySaved)
      else r == Ok(Saved) && user.savedEvents == old(user.savedEvents) + [e]
    ensures !r.Ok? ==> unchanged(user)
  {
    var e := context.FindEvent(eventId);
    if e == null {
      return NotFound("");
    }
    if e in user.savedEvents {
      return BadRequest(AlreadySaved);
    }
    AppendDistinct(user.savedEvents, e);
    user.savedEvents := user.savedEvents + [e];
    context.OwnedFrame();
    context.CategorisedFrame();
    context.MembersStep(e, user);
    r := Ok(Saved);
  }

  /** UnsaveEvent: the acting user drops a bookmark. */
  method UnsaveEvent(context: ApplicationDbContext, user: ApplicationUser, eventId: Guid) returns (r: Response<string>)
    requires context.Valid() && user in context.users.Values
    modifies user`savedEvents
    ensures context.Valid()
    ensures old(context.Consistent()) ==> context.Consistent()
    ensures var e := context.FindEvent(eventId);
      if e == null then r == NotFound("")
      else if e !in old(user.savedEvents) then r == BadRequest(NotSaved)
      else
        && r == Ok(Unsaved)
        && user.savedEvents == Remove<Event>(old(user.savedEvents), e)
        && e !in user.savedEvents
    ensures !r.Ok? ==> unchanged(user)
  {
    var e := context.FindEvent(eventId);
    if e == null {
      return NotFound("");
    }
    if e !in user.savedEvents {
      return BadRequest(NotSaved);
    }
    RemoveDistinct<Event>(user.savedEvents, e);
    user.savedEvents := Remove<Event>(user.savedEvents, e);
    context.OwnedFrame();
    context.CategorisedFrame();
    context.MembersStep(e, user);
    r := Ok(Unsaved);
  }

  /**
   * Subscribing to an event and then unsubscribing from it leaves both
   * attendance lists as they were.
   */
  method SubscribeThenUnsubscribe(context: ApplicationDbContext, user: ApplicationUser, eventId: Guid)
    returns (r1: Response<string>, r2: Response<string>)
    requires context.Valid() && context.Consistent() && user in context.users.Values
    requires context.FindEvent(eventId) != null
    modifies context.EventsWithId(eventId)`attendees, user`attendedByUser
    ensures var e := context.FindEvent(eventId);
      r1 == Ok(Subscribed) ==>
        && r2 == Ok(Unsubscribed)
        && e.attendees == old(e.attendees) && user.attendedByUser == old(user.attendedByUser)
  {
    ghost var e := context.FindEvent(eventId);
    ghost var attendees := e.attendees;
    ghost var attended := user.attendedByUser;
    r1 := Subscribe(context, user, eventId);
    if r1 == Ok(Subscribed) {
      assert user !in attendees;
      RemoveAfterAppend(attendees, user);
      RemoveAfterAppend<Event>(attended, e);
    }
    r2 := Unsubscribe(context, user, eventId);
  }

  /**
   * The two `Remove`s of KickUser as written: the acting user from the
   * attendees, the event from the subject's attended events. The structural
   * invariant survives; the pairing does not when the two users differ.
   */
  method KickEffect(context: ApplicationDbContext, e: Event, user: ApplicationUser, subject: ApplicationUser)
    requires context.Valid() && e in context.events && user in context.users.Values
    requires subject in context.users.Values && e in subject.attendedByUser
    modifies e`attendees, subject`attendedByUser
    ensures context.Valid()
    ensures e.attendees == Remove(old(e.attendees), user)
    ensures subject.attendedByUser == Remove(old(subject.attendedByUser), e)
    ensures old(context.Consistent()) && subject != user ==>
      && subject in e.attendees && e !in subject.attendedByUser
      && !context.Paired()
  {
    ghost var wasConsistent := context.Consistent();
    RemoveDistinct(subject.attendedByUser, e);
    e.attendees := Remove(e.attendees, user);
    subject.attendedByUser := Remove(subject.attendedByUser, e);
    context.OwnedFrame();
    context.CategorisedFrame();
    context.MembersStep(e, subject);
    if wasConsistent && subject != user {
      assert subject in e.attendees;
      assert !(subject in e.attendees <==> e in subject.attendedByUser);
    }
  }

  /** The two `Add`s of Subscribe. */
  method Enroll(context: ApplicationDbContext, e: Event, user: ApplicationUser)
    requires context.Valid() && e in context.events && user in context.users.Values
    requires e !in user.attendedByUser && user !in e.banList
    modifies e`attendees, user`attendedByUser
    ensures context.Valid()
    ensures old(context.Consistent()) ==> context.Consistent()
    ensures e.attendees == old(e.attendees) + [user]
    ensures user.attendedByUser == old(user.attendedByUser) + [e]
  {
    ghost var wasConsistent := context.Consistent();
    AppendDistinct(user.attendedByUser, e);
    if wasConsistent {
      AppendDistinct(e.attendees, user);
    }
    e.attendees := e.attendees + [user];
    user.attendedByUser := user.attendedByUser + [e];
    context.OwnedFrame();
    context.CategorisedFrame();
    context.MembersStep(e, user);
    if wasConsistent {
      context.ConsistentStep(e, user);
    }
  }

  /** The two `Remove`s of Unsubscribe. */
  method Disenroll(context: ApplicationDbContext, e: Event, user: ApplicationUser)
    requires context.Valid() && e in context.events && user in context.users.Values
    modifies e`attendees, user`attendedByUser
    ensures context.Valid()
    ensures old(context.Consistent()) ==> context.Consistent()
    ensures e.attendees == Remove(old(e.attendees), user)
    ensures user.attendedByUser == Remove(old(user.attendedByUser), e)
    ensures old(context.Consistent()) ==> user !in e.attendees && e !in user.attendedByUser
  {
    ghost var wasConsistent := context.Consistent();
    RemoveDistinct(user.attendedByUser, e);
    if wasConsistent {
      RemoveDistinct(e.attendees, user);
    }
    e.attendees := Remove(e.attendees, user);
    user.attendedByUser := Remove(user.attendedByUser, e);
    context.OwnedFrame();
    context.CategorisedFrame();
    context.MembersStep(e, user);
    if wasConsistent {
      context.ConsistentStep(e, user);
    }
  }
}
