/**
 * Upload tickets: one key per ticket with its own lifetime, and one list of created inventories per
 * user. A call reads a ticket, writes it back and, when it consumes it, appends to the list.
 */
module UploadTickets {
  import opened SessionKeys

  const MICROS_PER_SECOND := 1_000_000

  datatype TicketId = TicketId(text: string)

  datatype User = User(id: int)

  datatype Stage = WaitingForUpload | Uploaded | Consumed

  datatype Ticket = Ticket(
    owner: User, name: string, fileName: string, fileType: string,
    path: Option<string>, stage: Stage, inventory: Option<int>)

  datatype Entry = Entry(ticket: Ticket, expiry: int)

  datatype CreatedList = CreatedList(ids: seq<int>, expiry: int)

  datatype Call =
    | Confirming(id: TicketId, loaded: Ticket, confirmed: string)   // next: write the path
    | Consuming(id: TicketId, loaded: Ticket, created: int)         // next: write the inventory
    | Appending(user: User, created: int)                           // next: append it to the list

  // `used` are the ticket names ever drawn.
  datatype State = State(
    now: nat,
    used: set<TicketId>,
    tickets: map<TicketId, Entry>,
    lists: map<User, CreatedList>,
    calls: map<nat, Call>)

  const INITIAL := State(0, {}, map[], map[], map[])

  datatype Event =
    | Create(id: TicketId, owner: User, name: string, fileName: string, fileType: string)
    | BeginConfirm(t: nat, user: User, id: TicketId, path: string, allowed: bool)   // `allowed`: a CDN address
    | BeginConsume(t: nat, user: User, id: TicketId, created: int)
    | Write(t: nat)
    | Append(t: nat)
    | Record(user: User, created: int)
    | Drop(t: nat)                                                                  // the call dies
    | Wait(micros: nat)

  function Expiry(now: int, ttl: nat): int {
    now + ttl * MICROS_PER_SECOND
  }

  predicate LiveTicket(s: State, id: TicketId) {
    id in s.tickets && s.now < s.tickets[id].expiry
  }

  predicate LiveList(s: State, user: User) {
    user in s.lists && s.now < s.lists[user].expiry
  }

  predicate ValidFileType(fileType: string) {
    fileType == "IMAGE" || fileType == "XLSX"
  }

  function NewTicket(owner: User, name: string, fileName: string, fileType: string): Ticket {
    Ticket(owner, name, fileName, fileType, None, WaitingForUpload, None)
  }

  /** The user's own ticket, unless it is consumed and the call does not take that. */
  function Load(s: State, user: User, id: TicketId, allowConsumed: bool): Option<Ticket> {
    if !LiveTicket(s, id) then None
    else
      var ticket := s.tickets[id].ticket;
      if ticket.owner != user || (!allowConsumed && ticket.stage == Consumed) then None else Some(ticket)
  }

  // The ticket a confirmation starts from.
  function Confirmable(s: State, user: User, id: TicketId, allowed: bool): Option<Ticket> {
    var stored := Load(s, user, id, false);
    if stored.Some? && stored.value.path.None? && allowed then stored else None
  }

  // The ticket a consumption starts from.
  function Consumable(s: State, user: User, id: TicketId): Option<Ticket> {
    var stored := Load(s, user, id, false);
    if stored.Some? && stored.value.stage == Uploaded then stored else None
  }

  function WithPath(ticket: Ticket, path: string): Ticket {
    Ticket(ticket.owner, ticket.name, ticket.fileName, ticket.fileType, Some(path), Uploaded, ticket.inventory)
  }

  function WithInventory(ticket: Ticket, created: int): Ticket {
    Ticket(ticket.owner, ticket.name, ticket.fileName, ticket.fileType, ticket.path, Consumed, Some(created))
  }

  function Appended(s: State, user: User, created: int, ttl: nat): map<User, CreatedList> {
    var ids := if LiveList(s, user) then s.lists[user].ids else [];
    s.lists[user := CreatedList(ids + [created], Expiry(s.now, ttl))]
  }

  function Saved(s: State, id: TicketId, ticket: Ticket, ttl: nat): map<TicketId, Entry> {
    s.tickets[id := Entry(ticket, Expiry(s.now, ttl))]
  }

  function Step(s: State, e: Event, ttl: nat): State {
    match e
    case Create(id, owner, name, fileName, fileType) =>
      // Ticket names are 256 random bits: one that was drawn before is never drawn again.
      if id in s.used || !ValidFileType(fileType) then s
      else State(s.now, s.used + {id}, Saved(s, id, NewTicket(owner, name, fileName, fileType), ttl), s.lists, s.calls)
    case BeginConfirm(t, user, id, path, allowed) =>
      var loaded := Confirmable(s, user, id, allowed);
      if t in s.calls || loaded.None? then s
      else State(s.now, s.used, s.tickets, s.lists, s.calls[t := Confirming(id, loaded.value, path)])
    case BeginConsume(t, user, id, created) =>
      var loaded := Consumable(s, user, id);
      if t in s.calls || loaded.None? then s
      else State(s.now, s.used, s.tickets, s.lists, s.calls[t := Consuming(id, loaded.value, created)])
    case Write(t) =>
      if t !in s.calls then s
      else WriteStep(s, t, ttl)
    case Append(t) =>
      if t !in s.calls || !s.calls[t].Appending? then s
      else State(s.now, s.used, s.tickets, Appended(s, s.calls[t].user, s.calls[t].created, ttl), s.calls - {t})
    case Record(user, created) =>
      State(s.now, s.used, s.tickets, Appended(s, user, created, ttl), s.calls)
    case Drop(t) => State(s.now, s.used, s.tickets, s.lists, s.calls - {t})
    case Wait(micros) => State(s.now + micros, s.used, s.tickets, s.lists, s.calls)
  }

  function WriteStep(s: State, t: nat, ttl: nat): State
    requires t in s.calls
  {
    match s.calls[t]
    case Confirming(id, loaded, path) =>
      State(s.now, s.used, Saved(s, id, WithPath(loaded, path), ttl), s.lists, s.calls - {t})
    case Consuming(id, loaded, created) =>
      State(s.now, s.used, Saved(s, id, WithInventory(loaded, created), ttl), s.lists,
        s.calls[t := Appending(loaded.owner, created)])
    case Appending(_, _) => s
  }

  function Run(es: seq<Event>, ttl: nat): State {
    if es == [] then INITIAL else Step(Run(es[..|es| - 1], ttl), es[|es| - 1], ttl)
  }

  // ---- Well-formed tickets, in every interleaving ----

  ghost predicate WellFormed(ticket: Ticket) {
    && (ticket.stage == WaitingForUpload <==> ticket.path.None?)
    && (ticket.stage == Consumed <==> ticket.inventory.Some?)
  }

  // What a call took from the store and may still write back.
  ghost predicate CallFits(s: State, call: Call) {
    match call
    case Confirming(id, loaded, _) =>
      && WellFormed(loaded) && loaded.stage == WaitingForUpload
      && id in s.tickets && SameFile(loaded, s.tickets[id].ticket)
    case Consuming(id, loaded, _) =>
      WellFormed(loaded) && loaded.stage == Uploaded && id in s.tickets && SameFile(loaded, s.tickets[id].ticket)
    case Appending(_, _) => true
  }

  ghost predicate SameFile(a: Ticket, b: Ticket) {
    a.owner == b.owner && a.name == b.name && a.fileName == b.fileName && a.fileType == b.fileType
  }

  ghost predicate TicketsFit(s: State) {
    && (forall id :: id in s.tickets ==> id in s.used && WellFormed(s.tickets[id].ticket))
    && (forall t :: t in s.calls ==> CallFits(s, s.calls[t]))
  }

  // Tickets keep their owner and file for ever.
  ghost predicate FilesKept(s: State, after: State) {
    forall id :: id in s.tickets ==> id in after.tickets && SameFile(s.tickets[id].ticket, after.tickets[id].ticket)
  }

  lemma CallSurvives(s: State, after: State, call: Call)
    requires CallFits(s, call) && FilesKept(s, after)
    ensures CallFits(after, call)
  {
  }

  lemma StepKeepsFiles(s: State, e: Event, ttl: nat)
    requires TicketsFit(s)
    ensures FilesKept(s, Step(s, e, ttl))
  {
    hide Expiry, Appended, ValidFileType, Load, WellFormed;
    if e.Write? && e.t in s.calls {
      assert CallFits(s, s.calls[e.t]);
    }
  }

  lemma StepKeepsWellFormed(s: State, e: Event, ttl: nat, id: TicketId)
    requires TicketsFit(s) && id in Step(s, e, ttl).tickets
    ensures id in Step(s, e, ttl).used && WellFormed(Step(s, e, ttl).tickets[id].ticket)
  {
    hide Expiry, Appended, ValidFileType, Load;
    if e.Write? && e.t in s.calls {
      assert CallFits(s, s.calls[e.t]);
    }
  }

  // A step adds no call but one that fits.
  lemma StepKeepsCallsFit(s: State, e: Event, ttl: nat, t: nat)
    requires TicketsFit(s) && t in Step(s, e, ttl).calls
    ensures CallFits(Step(s, e, ttl), Step(s, e, ttl).calls[t])
  {
    hide Expiry, Appended, ValidFileType, Saved;
    var after := Step(s, e, ttl);
    if t in s.calls && s.calls[t] == after.calls[t] {
      StepKeepsFiles(s, e, ttl);
      CallSurvives(s, after, s.calls[t]);
    }
  }

  lemma StepKeepsTicketsFit(s: State, e: Event, ttl: nat)
    requires TicketsFit(s)
    ensures TicketsFit(Step(s, e, ttl)) && FilesKept(s, Step(s, e, ttl))
  {
    hide Step, WellFormed, CallFits;
    StepKeepsFiles(s, e, ttl);
    forall t | t in Step(s, e, ttl).calls ensures CallFits(Step(s, e, ttl), Step(s, e, ttl).calls[t]) {
      StepKeepsCallsFit(s, e, ttl, t);
    }
    forall id | id in Step(s, e, ttl).tickets
      ensures id in Step(s, e, ttl).used && WellFormed(Step(s, e, ttl).tickets[id].ticket)
    {
      StepKeepsWellFormed(s, e, ttl, id);
    }
  }

  lemma {:induction false} EveryTicketIsWellFormed(es: seq<Event>, ttl: nat)
    ensures TicketsFit(Run(es, ttl))
  {
    if es != [] {
      hide TicketsFit, Step;
      EveryTicketIsWellFormed(es[..|es| - 1], ttl);
      StepKeepsTicketsFit(Run(es[..|es| - 1], ttl), es[|es| - 1], ttl);
    } else {
      hide CallFits, WellFormed;
    }
  }

  /**
   * In any interleaving a ticket waits exactly while it has no path, and is consumed exactly when it
   * has an inventory.
   */
  lemma StageTellsContents(es: seq<Event>, id: TicketId, ttl: nat)
    requires id in Run(es, ttl).tickets
    ensures var ticket := Run(es, ttl).tickets[id].ticket;
      && (ticket.stage == WaitingForUpload <==> ticket.path.None?)
      && (ticket.stage == Consumed <==> ticket.inventory.Some?)
  {
    hide Run;
    EveryTicketIsWellFormed(es, ttl);
  }

  /** In any interleaving a ticket keeps its owner. */
  lemma {:induction false} OwnersNeverChange(es: seq<Event>, i: nat, id: TicketId, ttl: nat)
    requires i <= |es| && id in Run(es[..i], ttl).tickets
    ensures id in Run(es, ttl).tickets
    ensures Run(es, ttl).tickets[id].ticket.owner == Run(es[..i], ttl).tickets[id].ticket.owner
  {
    hide Step, TicketsFit;
    if i == |es| {
      assert es[..i] == es;
    } else {
      var n := |es| - 1;
      assert es[..n][..i] == es[..i];
      OwnersNeverChange(es[..n], i, id, ttl);
      EveryTicketIsWellFormed(es[..n], ttl);
      StepKeepsTicketsFit(Run(es[..n], ttl), es[n], ttl);
    }
  }

  // ---- Tickets only advance, unless a call writes over another one's work ----

  function Rank(stage: Stage): nat {
    match stage
    case WaitingForUpload => 0
    case Uploaded => 1
    case Consumed => 2
  }

  // The ticket moved on or stayed; a path or an inventory that was set is still the same.
  ghost predicate Advances(a: Ticket, b: Ticket) {
    && Rank(a.stage) <= Rank(b.stage)
    && (a.path.Some? ==> b.path == a.path)
    && (a.inventory.Some? ==> b.inventory == a.inventory)
  }

  ghost predicate AllAdvance(s: State, after: State) {
    forall id :: id in s.tickets ==> id in after.tickets && Advances(s.tickets[id].ticket, after.tickets[id].ticket)
  }

  // A write based on a ticket that another call has moved on since.
  predicate WritesOver(s: State, e: Event) {
    e.Write? && e.t in s.calls
    && match s.calls[e.t]
       case Confirming(id, _, path) =>
         id in s.tickets && s.tickets[id].ticket.path.Some?
         && (s.tickets[id].ticket.path.value != path || s.tickets[id].ticket.stage == Consumed)
       case Consuming(id, loaded, created) =>
         id in s.tickets
         && (s.tickets[id].ticket.path != loaded.path
             || (s.tickets[id].ticket.inventory.Some? && s.tickets[id].ticket.inventory.value != created))
       case Appending(_, _) => false
  }

  ghost predicate PathsKept(s: State) {
    forall t :: t in s.calls && s.calls[t].Consuming? ==>
      s.calls[t].id in s.tickets && s.tickets[s.calls[t].id].ticket.path.Some?
  }

  /** One step advances every ticket exactly when it does not write over another call's work. */
  lemma StepAdvancesIffNotOver(s: State, e: Event, ttl: nat)
    requires TicketsFit(s) && PathsKept(s)
    ensures AllAdvance(s, Step(s, e, ttl)) <==> !WritesOver(s, e)
    ensures PathsKept(Step(s, e, ttl))
  {
    hide Expiry, Appended, ValidFileType;
    if e.Write? && e.t in s.calls {
      WriteAdvancesIffNotOver(s, e.t, ttl);
    }
  }

  lemma WriteAdvancesIffNotOver(s: State, t: nat, ttl: nat)
    requires TicketsFit(s) && PathsKept(s) && t in s.calls
    ensures AllAdvance(s, WriteStep(s, t, ttl)) <==> !WritesOver(s, Write(t))
    ensures PathsKept(WriteStep(s, t, ttl))
  {
    hide Expiry;
    assert CallFits(s, s.calls[t]);
    var after := WriteStep(s, t, ttl);
    if !s.calls[t].Appending? {
      var id := s.calls[t].id;
      assert WellFormed(s.tickets[id].ticket);
      assert AllAdvance(s, after) <==> Advances(s.tickets[id].ticket, after.tickets[id].ticket);
    }
  }

  ghost predicate NeverWritesOver(es: seq<Event>, ttl: nat) {
    forall i :: 0 <= i < |es| ==> !WritesOver(Run(es[..i], ttl), es[i])
  }

  lemma {:induction false} PathsAreKept(es: seq<Event>, ttl: nat)
    ensures PathsKept(Run(es, ttl))
  {
    if es != [] {
      hide TicketsFit, PathsKept, Step, AllAdvance, WritesOver;
      PathsAreKept(es[..|es| - 1], ttl);
      EveryTicketIsWellFormed(es[..|es| - 1], ttl);
      StepAdvancesIffNotOver(Run(es[..|es| - 1], ttl), es[|es| - 1], ttl);
    }
  }

  /**
   * Over a whole run in which no call writes over another's work, every ticket only moves from
   * waiting to uploaded to consumed, and its path and inventory are set once.
   */
  lemma {:induction false} TicketsOnlyAdvance(es: seq<Event>, i: nat, ttl: nat)
    requires i <= |es| && NeverWritesOver(es, ttl)
    ensures AllAdvance(Run(es[..i], ttl), Run(es, ttl))
  {
    hide TicketsFit, PathsKept, Step, WritesOver;
    if i == |es| {
      assert es[..i] == es;
    } else {
      var n := |es| - 1;
      assert es[..n][..i] == es[..i];
      forall k | 0 <= k < n ensures es[..n][..k] == es[..k] && es[..n][k] == es[k] {
      }
      TicketsOnlyAdvance(es[..n], i, ttl);
      EveryTicketIsWellFormed(es[..n], ttl);
      PathsAreKept(es[..n], ttl);
      StepAdvancesIffNotOver(Run(es[..n], ttl), es[n], ttl);
    }
  }

  /** Calls that run one after another never write over each other's work. */
  lemma UninterruptedCallsAreFresh(s: State, t: nat, user: User, id: TicketId,
      path: string, allowed: bool, created: int, ttl: nat)
    requires TicketsFit(s) && t !in s.calls
    ensures !WritesOver(Step(s, BeginConfirm(t, user, id, path, allowed), ttl), Write(t))
    ensures !WritesOver(Step(s, BeginConsume(t, user, id, created), ttl), Write(t))
  {
    assert id in s.tickets ==> WellFormed(s.tickets[id].ticket);
  }

  // ---- Consumed tickets are in their owner's list ----

  ghost predicate Listed(s: State, id: TicketId)
    requires id in s.tickets && s.tickets[id].ticket.inventory.Some?
  {
    var entry := s.tickets[id];
    && entry.ticket.owner in s.lists
    && entry.ticket.inventory.value in s.lists[entry.ticket.owner].ids
    && entry.expiry <= s.lists[entry.ticket.owner].expiry
  }

  ghost predicate AppendPending(s: State, user: User, created: int) {
    exists t :: t in s.calls && s.calls[t] == Appending(user, created)
  }

  ghost predicate TicketListed(s: State, id: TicketId) {
    LiveTicket(s, id) && s.tickets[id].ticket.inventory.Some? ==>
      Listed(s, id) || AppendPending(s, s.tickets[id].ticket.owner, s.tickets[id].ticket.inventory.value)
  }

  ghost predicate ExpiriesBounded(s: State, ttl: nat) {
    && (forall id :: id in s.tickets ==> s.tickets[id].expiry <= Expiry(s.now, ttl))
    && (forall user :: user in s.lists ==> s.lists[user].expiry <= Expiry(s.now, ttl))
  }

  ghost predicate AllListed(s: State, ttl: nat) {
    (forall id :: id in s.tickets ==> TicketListed(s, id)) && ExpiriesBounded(s, ttl)
  }

  // Call `t` is the last to hold the append that ticket `id` still needs.
  ghost predicate LastHope(s: State, t: nat, id: TicketId) {
    && t in s.calls && LiveTicket(s, id) && s.tickets[id].ticket.inventory.Some?
    && s.calls[t] == Appending(s.tickets[id].ticket.owner, s.tickets[id].ticket.inventory.value)
    && !Listed(s, id)
    && forall u :: u in s.calls && u != t ==> s.calls[u] != s.calls[t]
  }

  // A call dies that was the last hope of some live consumed ticket.
  ghost predicate Strands(s: State, e: Event) {
    e.Drop? && exists id :: LastHope(s, e.t, id)
  }

  lemma StepKeepsExpiriesBounded(s: State, e: Event, ttl: nat)
    requires ExpiriesBounded(s, ttl)
    ensures ExpiriesBounded(Step(s, e, ttl), ttl)
  {
    hide Load, ValidFileType, WithPath, WithInventory;
  }

  lemma AppendKeepsListed(s: State, user: User, created: int, ttl: nat, id: TicketId)
    requires ExpiriesBounded(s, ttl) && LiveTicket(s, id) && s.tickets[id].ticket.inventory.Some?
    ensures var lists := Appended(s, user, created, ttl);
      var after := State(s.now, s.used, s.tickets, lists, s.calls);
      && (Listed(s, id) ==> Listed(after, id))
      && (s.tickets[id].ticket.owner == user && s.tickets[id].ticket.inventory.value == created ==> Listed(after, id))
  {
  }

  lemma StepKeepsListed(s: State, e: Event, ttl: nat, id: TicketId)
    requires TicketsFit(s) && AllListed(s, ttl) && !Strands(s, e)
    requires id in Step(s, e, ttl).tickets
    ensures TicketListed(Step(s, e, ttl), id)
  {
    hide Load, ValidFileType, Appended, TicketsFit;
    var after := Step(s, e, ttl);
    if LiveTicket(after, id) && after.tickets[id].ticket.inventory.Some? {
      if id !in s.tickets || after.tickets[id] != s.tickets[id] {
        WrittenIsPending(s, e, ttl, id);
      } else {
        UnwrittenStaysListed(s, e, ttl, id);
      }
    }
  }

  lemma WrittenIsPending(s: State, e: Event, ttl: nat, id: TicketId)
    requires TicketsFit(s) && id in Step(s, e, ttl).tickets
    requires id !in s.tickets || Step(s, e, ttl).tickets[id] != s.tickets[id]
    requires Step(s, e, ttl).tickets[id].ticket.inventory.Some?
    ensures var ticket := Step(s, e, ttl).tickets[id].ticket;
      AppendPending(Step(s, e, ttl), ticket.owner, ticket.inventory.value)
  {
    hide Load, ValidFileType, Appended, Expiry;
    assert e.Write? && e.t in s.calls;
    assert CallFits(s, s.calls[e.t]);
    assert e.t in Step(s, e, ttl).calls;
  }

  lemma UnwrittenStaysListed(s: State, e: Event, ttl: nat, id: TicketId)
    requires AllListed(s, ttl) && !Strands(s, e) && id in s.tickets
    requires LiveTicket(Step(s, e, ttl), id) && Step(s, e, ttl).tickets[id] == s.tickets[id]
    requires s.tickets[id].ticket.inventory.Some?
    ensures TicketListed(Step(s, e, ttl), id)
  {
    hide Load, ValidFileType, Appended, WithPath, WithInventory, Expiry;
    var after := Step(s, e, ttl);
    var user, created := s.tickets[id].ticket.owner, s.tickets[id].ticket.inventory.value;
    assert TicketListed(s, id) && LiveTicket(s, id);
    if e.Append? && e.t in s.calls && s.calls[e.t].Appending? {
      AppendKeepsListed(s, s.calls[e.t].user, s.calls[e.t].created, ttl, id);
    } else if e.Record? {
      AppendKeepsListed(s, e.user, e.created, ttl, id);
    }
    if !Listed(s, id) {
      var t :| t in s.calls && s.calls[t] == Appending(user, created);
      if e == Drop(t) {
        assert !LastHope(s, t, id);
        var u :| u in s.calls && u != t && s.calls[u] == Appending(user, created);
        assert u in after.calls && after.calls[u] == s.calls[u];
      } else {
        assert (e.Append? && e.t == t) || t in after.calls;
      }
    }
  }

  lemma DroppedHopeIsNotListed(s: State, t: nat, id: TicketId, ttl: nat)
    requires LastHope(s, t, id)
    ensures !TicketListed(Step(s, Drop(t), ttl), id)
  {
    var after := Step(s, Drop(t), ttl);
    forall u | u in after.calls ensures after.calls[u] != s.calls[t] {
      assert u in s.calls && u != t;
    }
  }

  /**
   * A step keeps every live consumed ticket listed, or about to be, exactly when it is not the death
   * of a call that was the last to hold an append some ticket still needs.
   */
  lemma StepListsIffNotStranding(s: State, e: Event, ttl: nat)
    requires TicketsFit(s) && AllListed(s, ttl)
    ensures AllListed(Step(s, e, ttl), ttl) <==> !Strands(s, e)
  {
    hide TicketsFit, Step, TicketListed, ExpiriesBounded, LastHope;
    StepKeepsExpiriesBounded(s, e, ttl);
    if Strands(s, e) {
      var id :| LastHope(s, e.t, id);
      DroppedHopeIsNotListed(s, e.t, id, ttl);
      DropKeepsTicket(s, e.t, id, ttl);
    } else {
      forall id | id in Step(s, e, ttl).tickets ensures TicketListed(Step(s, e, ttl), id) {
        StepKeepsListed(s, e, ttl, id);
      }
    }
  }

  lemma DropKeepsTicket(s: State, t: nat, id: TicketId, ttl: nat)
    requires LastHope(s, t, id)
    ensures id in Step(s, Drop(t), ttl).tickets
  {
  }

  ghost predicate NeverStrands(es: seq<Event>, ttl: nat) {
    forall i :: 0 <= i < |es| ==> !Strands(Run(es[..i], ttl), es[i])
  }

  ghost predicate AlwaysListed(es: seq<Event>, ttl: nat) {
    forall i :: 0 <= i <= |es| ==> AllListed(Run(es[..i], ttl), ttl)
  }

  /** Over whole runs, in any interleaving: they always are exactly when no such call ever dies. */
  lemma {:induction false} EveryConsumedIsListed(es: seq<Event>, ttl: nat)
    ensures AlwaysListed(es, ttl) <==> NeverStrands(es, ttl)
    ensures NeverStrands(es, ttl) ==> AllListed(Run(es, ttl), ttl)
  {
    hide Step, Strands, AllListed;
    assert es[..|es|] == es;
    if es == [] {
      InitialIsListed(ttl);
    } else {
      var n := |es| - 1;
      forall k | 0 <= k <= n ensures es[..n][..k] == es[..k] && (k < n ==> es[..n][k] == es[k]) {
      }
      EveryConsumedIsListed(es[..n], ttl);
      EveryTicketIsWellFormed(es[..n], ttl);
      if AllListed(Run(es[..n], ttl), ttl) {
        StepListsIffNotStranding(Run(es[..n], ttl), es[n], ttl);
      }
      assert AlwaysListed(es, ttl) <==> AlwaysListed(es[..n], ttl) && AllListed(Run(es, ttl), ttl) by {
        LastOfAlways(es, ttl);
      }
      assert NeverStrands(es, ttl) <==> NeverStrands(es[..n], ttl) && !Strands(Run(es[..n], ttl), es[n]);
    }
  }

  lemma InitialIsListed(ttl: nat)
    ensures AllListed(Run([], ttl), ttl)
  {
  }

  lemma LastOfAlways(es: seq<Event>, ttl: nat)
    requires es != []
    ensures AlwaysListed(es, ttl) <==> AlwaysListed(es[..|es| - 1], ttl) && AllListed(Run(es, ttl), ttl)
  {
    hide Run, AllListed;
    var n := |es| - 1;
    forall k | 0 <= k <= n ensures es[..n][..k] == es[..k] {
    }
    assert es[..|es|] == es;
  }

  /**
   * In any interleaving without such a death: the inventory of a live consumed ticket is in its
   * owner's live list, or about to be, because no list expires before a ticket it records.
   */
  lemma LiveConsumedTicketIsListed(es: seq<Event>, id: TicketId, ttl: nat)
    requires NeverStrands(es, ttl) && LiveTicket(Run(es, ttl), id) && Run(es, ttl).tickets[id].ticket.stage == Consumed
    ensures var s, ticket := Run(es, ttl), Run(es, ttl).tickets[id].ticket;
      ticket.inventory.Some?
      && ((LiveList(s, ticket.owner) && ticket.inventory.value in s.lists[ticket.owner].ids)
          || AppendPending(s, ticket.owner, ticket.inventory.value))
  {
    hide Run;
    EveryTicketIsWellFormed(es, ttl);
    EveryConsumedIsListed(es, ttl);
    assert TicketListed(Run(es, ttl), id);
  }

  // ---- Where a path comes from ----

  // Some call on the ticket gave the path, and its address was found to be allowed.
  ghost predicate WasConfirmed(es: seq<Event>, id: TicketId, path: string) {
    exists i :: 0 <= i < |es| && es[i].BeginConfirm? && es[i].id == id && es[i].path == path && es[i].allowed
  }

  ghost predicate PathWasConfirmed(es: seq<Event>, id: TicketId, ticket: Ticket) {
    ticket.path.Some? ==> WasConfirmed(es, id, ticket.path.value)
  }

  ghost predicate PathsWereConfirmed(es: seq<Event>, s: State) {
    && (forall id :: id in s.tickets ==> PathWasConfirmed(es, id, s.tickets[id].ticket))
    && (forall t :: t in s.calls ==>
          match s.calls[t]
          case Confirming(id, _, path) => WasConfirmed(es, id, path)
          case Consuming(id, loaded, _) => PathWasConfirmed(es, id, loaded)
          case Appending(_, _) => true)
  }

  lemma ConfirmedBefore(es: seq<Event>, s: State)
    requires es != [] && PathsWereConfirmed(es[..|es| - 1], s)
    ensures PathsWereConfirmed(es, s)
  {
    forall id, path | WasConfirmed(es[..|es| - 1], id, path) ensures WasConfirmed(es, id, path) {
      var i :| 0 <= i < |es| - 1 && es[i].BeginConfirm? && es[i].id == id && es[i].path == path && es[i].allowed;
    }
  }

  lemma StepKeepsPathsConfirmed(es: seq<Event>, s: State, ttl: nat)
    requires es != [] && PathsWereConfirmed(es, s)
    ensures PathsWereConfirmed(es, Step(s, es[|es| - 1], ttl))
  {
    hide Appended, ValidFileType;
    var e := es[|es| - 1];
    if e.BeginConfirm? && e.allowed {
      assert WasConfirmed(es, e.id, e.path);
    }
    if e.Write? && e.t in s.calls {
      hide WasConfirmed;
    }
  }

  /** In any interleaving, the path of a ticket is one that a call on it gave, at an allowed address. */
  lemma {:induction false} EveryPathWasConfirmed(es: seq<Event>, ttl: nat)
    ensures PathsWereConfirmed(es, Run(es, ttl))
  {
    if es != [] {
      hide Step, PathsWereConfirmed;
      EveryPathWasConfirmed(es[..|es| - 1], ttl);
      ConfirmedBefore(es, Run(es[..|es| - 1], ttl));
      StepKeepsPathsConfirmed(es, Run(es[..|es| - 1], ttl), ttl);
    }
  }

  // ---- What interleaving and dying calls can break ----

  lemma RunTwo(es: seq<Event>, a: Event, b: Event, ttl: nat)
    ensures Run(es + [a, b], ttl) == Step(Step(Run(es, ttl), a, ttl), b, ttl)
  {
    var all := es + [a, b];
    assert all[..|all| - 1] == es + [a];
    assert (es + [a])[..|es|] == es;
  }

  lemma FirstTwoSteps(id: TicketId, owner: User, path: string, ttl: nat) returns (s: State)
    requires ttl > 0
    ensures s
      == Step(Step(INITIAL, Create(id, owner, "", "", "IMAGE"), ttl), BeginConfirm(0, owner, id, path, true), ttl)
    ensures s.now == 0 && s.lists == map[]
    ensures id in s.tickets && s.tickets[id] == Entry(NewTicket(owner, "", "", "IMAGE"), Expiry(0, ttl))
    ensures s.calls == map[0 := Confirming(id, NewTicket(owner, "", "", "IMAGE"), path)]
  {
    s := Step(Step(INITIAL, Create(id, owner, "", "", "IMAGE"), ttl), BeginConfirm(0, owner, id, path, true), ttl);
  }

  /** Two confirmations that both saw the ticket waiting: the later write replaces the path of the earlier. */
  lemma ConcurrentConfirmationsReplacePath(id: TicketId, owner: User, ttl: nat) returns (es: seq<Event>)
    requires ttl > 0
    ensures |es| == 5 && id in Run(es[..4], ttl).tickets && id in Run(es, ttl).tickets
    ensures Run(es[..4], ttl).tickets[id].ticket.path == Some("first")
    ensures Run(es, ttl).tickets[id].ticket.path == Some("second")
  {
    var create, one := Create(id, owner, "", "", "IMAGE"), BeginConfirm(0, owner, id, "first", true);
    var two := BeginConfirm(1, owner, id, "second", true);
    es := [create, one, two, Write(0), Write(1)];
    var s := FirstTwoSteps(id, owner, "first", ttl);
    assert [create, one, two, Write(0)] == [create, one] + [two, Write(0)] && [create, one] == [] + [create, one];
    RunTwo([], create, one, ttl);
    RunTwo([create, one], two, Write(0), ttl);
    SecondConfirmation(s, id, owner, ttl);
    assert es[..4] == [create, one, two, Write(0)];
    assert es[..|es| - 1] == es[..4];
  }

  lemma SecondConfirmation(s: State, id: TicketId, owner: User, ttl: nat)
    requires ttl > 0 && s.now == 0 && id in s.tickets
    requires s.tickets[id] == Entry(NewTicket(owner, "", "", "IMAGE"), Expiry(0, ttl))
    requires s.calls == map[0 := Confirming(id, NewTicket(owner, "", "", "IMAGE"), "first")]
    ensures var four := Step(Step(s, BeginConfirm(1, owner, id, "second", true), ttl), Write(0), ttl);
      var five := Step(four, Write(1), ttl);
      && id in four.tickets && four.tickets[id].ticket.path == Some("first")
      && id in five.tickets && five.tickets[id].ticket.path == Some("second")
  {
  }

  /** A call that dies between its write and its append leaves a consumed ticket that no list records. */
  lemma DyingCallLosesInventory(id: TicketId, owner: User, ttl: nat) returns (es: seq<Event>)
    requires ttl > 0
    ensures id in Run(es, ttl).tickets && LiveTicket(Run(es, ttl), id)
    ensures Run(es, ttl).tickets[id].ticket.stage == Consumed
    ensures Run(es, ttl).lists == map[] && Run(es, ttl).calls == map[]
  {
    var create, one := Create(id, owner, "", "", "IMAGE"), BeginConfirm(0, owner, id, "path", true);
    var begin := BeginConsume(0, owner, id, 7);
    var s := FirstTwoSteps(id, owner, "path", ttl);
    assert [create, one] == [] + [create, one];
    RunTwo([], create, one, ttl);
    RunTwo([create, one], Write(0), begin, ttl);
    RunTwo([create, one] + [Write(0), begin], Write(0), Drop(0), ttl);
    es := [create, one] + [Write(0), begin] + [Write(0), Drop(0)];
    ConsumedThenDropped(s, id, owner, ttl);
  }

  lemma ConsumedThenDropped(s: State, id: TicketId, owner: User, ttl: nat)
    requires ttl > 0 && s.now == 0 && id in s.tickets && s.lists == map[]
    requires s.tickets[id] == Entry(NewTicket(owner, "", "", "IMAGE"), Expiry(0, ttl))
    requires s.calls == map[0 := Confirming(id, NewTicket(owner, "", "", "IMAGE"), "path")]
    ensures var begun := Step(Step(s, Write(0), ttl), BeginConsume(0, owner, id, 7), ttl);
      var after := Step(Step(begun, Write(0), ttl), Drop(0), ttl);
      && LiveTicket(after, id) && after.tickets[id].ticket.stage == Consumed
      && after.lists == map[] && after.calls == map[]
  {
    var begun := Step(Step(s, Write(0), ttl), BeginConsume(0, owner, id, 7), ttl);
    assert begun.calls[0] == Consuming(id, WithPath(NewTicket(owner, "", "", "IMAGE"), "path"), 7);
    assert begun.calls == map[0 := begun.calls[0]];
    var written := Step(begun, Write(0), ttl);
    assert written.calls == map[0 := Appending(owner, 7)];
    assert written.calls - {0} == map[];
  }

  // ---- The service over its keys, one call after another ----

  class TicketService {
    const ttl: nat
    var now: nat
    ghost var used: set<TicketId>
    var tickets: map<TicketId, Entry>
    var lists: map<User, CreatedList>

    ghost function Contents(): State
      reads this
    {
      State(now, used, tickets, lists, map[])
    }

    constructor (seconds: nat)
      ensures ttl == seconds && Contents() == INITIAL
    {
      ttl := seconds;
      now, used, tickets, lists := 0, {}, map[], map[];
    }

    method Save(id: TicketId, ticket: Ticket)
      modifies `tickets
      ensures tickets == old(tickets)[id := Entry(ticket, now + ttl * 1_000_000)]
    {
      tickets := tickets[id := Entry(ticket, Expiry(now, ttl))];
    }

    method AppendCreatedId(user: User, created: int)
      modifies `lists
      ensures lists == Appended(old(Contents()), user, created, ttl)
      ensures user in lists && lists == old(lists)[user := lists[user]]
      ensures lists[user].expiry == now + ttl * 1_000_000
      ensures lists[user].ids
        == old(if user in lists && now < lists[user].expiry then lists[user].ids else []) + [created]
    {
      var ids := if user in lists && now < lists[user].expiry then lists[user].ids else [];
      lists := lists[user := CreatedList(ids + [created], Expiry(now, ttl))];
    }

    method GetCreatedIds(user: User) returns (ids: seq<int>)
      ensures ids == if user in lists && now < lists[user].expiry then lists[user].ids else []
    {
      return if user in lists && now < lists[user].expiry then lists[user].ids else [];
    }

    /** `id` is the name drawn for the ticket, never drawn before. */
    method CreateTicket(id: TicketId, owner: User, name: string, fileName: string, fileType: string) returns (ok: bool)
      requires id !in used
      modifies `tickets, `used
      ensures Contents() == Step(old(Contents()), Create(id, owner, name, fileName, fileType), ttl)
      ensures ok <==> fileType == "IMAGE" || fileType == "XLSX"
      ensures tickets == if !ok then old(tickets) else old(tickets)[id := Entry(
          Ticket(owner, name, fileName, fileType, None, WaitingForUpload, None), now + ttl * 1_000_000)]
    {
      if !ValidFileType(fileType) {
        return false;
      }
      Save(id, NewTicket(owner, name, fileName, fileType));
      used := used + {id};
      return true;
    }

    method LoadTicket(user: User, id: TicketId, allowConsumed: bool) returns (ticket: Option<Ticket>)
      ensures ticket == Load(Contents(), user, id, allowConsumed)
      ensures ticket.Some? <==>
        && id in tickets && now < tickets[id].expiry && tickets[id].ticket.owner == user
        && (allowConsumed || tickets[id].ticket.stage != Consumed)
      ensures ticket.Some? ==> ticket.value == tickets[id].ticket
    {
      if id !in tickets || now >= tickets[id].expiry || tickets[id].ticket.owner != user {
        return None;
      }
      if !allowConsumed && tickets[id].ticket.stage == Consumed {
        return None;
      }
      return Some(tickets[id].ticket);
    }

    method ConfirmPath(user: User, id: TicketId, path: string, allowed: bool) returns (updated: Option<Ticket>)
      modifies `tickets
      ensures Contents() == Step(Step(old(Contents()), BeginConfirm(0, user, id, path, allowed), ttl), Write(0), ttl)
      ensures updated.Some? <==>
        && allowed && id in old(tickets) && now < old(tickets)[id].expiry
        && var ticket := old(tickets)[id].ticket;
           ticket.owner == user && ticket.stage != Consumed && ticket.path.None?
      ensures updated.Some? ==>
        && updated.value == old(tickets)[id].ticket.(path := Some(path), stage := Uploaded)
        && tickets == old(tickets)[id := Entry(updated.value, now + ttl * 1_000_000)]
      ensures updated.None? ==> tickets == old(tickets)
    {
      hide Load, WithPath;
      ghost var s := Contents();
      ConfirmAlone(s, user, id, path, allowed, ttl);
      var stored := LoadTicket(user, id, false);
      if stored.None? || stored.value.path.Some? || !allowed {
        return None;
      }
      UpdatedFields(stored.value, path, 0);
      Save(id, WithPath(stored.value, path));
      return Some(WithPath(stored.value, path));
    }

    method MarkConsumed(user: User, id: TicketId, created: int) returns (updated: Option<Ticket>)
      modifies `tickets, `lists
      ensures Contents()
        == Step(Step(Step(old(Contents()), BeginConsume(0, user, id, created), ttl), Write(0), ttl), Append(0), ttl)
      ensures updated.Some? <==>
        && id in old(tickets) && now < old(tickets)[id].expiry
        && old(tickets)[id].ticket.owner == user && old(tickets)[id].ticket.stage == Uploaded
      ensures updated.Some? ==>
        && updated.value == old(tickets)[id].ticket.(inventory := Some(created), stage := Consumed)
        && tickets == old(tickets)[id := Entry(updated.value, now + ttl * 1_000_000)]
        && Listed(Contents(), id)
      ensures updated.None? ==> tickets == old(tickets) && lists == old(lists)
    {
      hide Load, WithInventory;
      ghost var s := Contents();
      ConsumeAlone(s, user, id, created, ttl);
      var stored := LoadTicket(user, id, false);
      if stored.None? || stored.value.stage != Uploaded {
        return None;
      }
      UpdatedFields(stored.value, "", created);
      Save(id, WithInventory(stored.value, created));
      AppendCreatedId(user, created);
      ConsumedIsListed(Contents(), s, user, id, stored.value, created, ttl);
      return Some(WithInventory(stored.value, created));
    }

    method RecordCreatedInventory(user: User, created: int)
      modifies `lists
      ensures Contents() == Step(old(Contents()), Record(user, created), ttl)
    {
      AppendCreatedId(user, created);
    }
  }

  lemma UpdatedFields(ticket: Ticket, path: string, created: int)
    ensures WithPath(ticket, path) == ticket.(path := Some(path), stage := Uploaded)
    ensures WithInventory(ticket, created) == ticket.(inventory := Some(created), stage := Consumed)
  {
  }

  lemma ConfirmAlone(s: State, user: User, id: TicketId, path: string, allowed: bool, ttl: nat)
    requires s.calls == map[]
    ensures var loaded := Confirmable(s, user, id, allowed);
      Step(Step(s, BeginConfirm(0, user, id, path, allowed), ttl), Write(0), ttl)
      == if loaded.None? then s
         else State(s.now, s.used, Saved(s, id, WithPath(loaded.value, path), ttl), s.lists, map[])
  {
    hide Load, Expiry, WithPath;
    var begun := Step(s, BeginConfirm(0, user, id, path, allowed), ttl);
    assert begun.calls - {0} == map[];
  }

  lemma ConsumeAlone(s: State, user: User, id: TicketId, created: int, ttl: nat)
    requires s.calls == map[]
    ensures var loaded := Consumable(s, user, id);
      Step(Step(Step(s, BeginConsume(0, user, id, created), ttl), Write(0), ttl), Append(0), ttl)
      == if loaded.None? then s
         else State(s.now, s.used, Saved(s, id, WithInventory(loaded.value, created), ttl),
                Appended(s, user, created, ttl), map[])
  {
    hide Expiry, WithInventory;
    var begun := Step(s, BeginConsume(0, user, id, created), ttl);
    var written := Step(begun, Write(0), ttl);
    assert written.calls - {0} == map[];
  }

  lemma ConsumedIsListed(after: State, s: State, user: User, id: TicketId, ticket: Ticket, created: int, ttl: nat)
    requires ticket.owner == user
    requires after.tickets == Saved(s, id, WithInventory(ticket, created), ttl)
    requires after.lists == Appended(s, user, created, ttl)
    ensures Listed(after, id)
  {
  }
}
