/**
 The top-level component (App.tsx): the client collection, the screen being
 shown and the selected client, together with the value persisted under the
 fixed local-storage key. Each button callback is a transition on that state.
 */
module App {
  import opened Wrappers
  import opened Types
  import opened Seqs
  import ClientForm

  /** What the local store holds under the key. Parsing is not modelled: a
      serialized collection parses back to itself, anything else is `Unparsable`,
      and a missing or empty entry is `Absent`. */
  datatype Stored = Absent | Unparsable | Serialized(clients: seq<Client>)

  datatype AppState = AppState(
    clients: seq<Client>,
    view: ViewState,
    selected: Option<Client>,
    store: Stored)

  /** No two clients of the collection share an identifier. */
  ghost predicate UniqueIds(cs: seq<Client>)
  {
    forall i, j :: 0 <= i < j < |cs| ==> cs[i].id != cs[j].id
  }

  ghost predicate HasId(cs: seq<Client>, id: string)
  {
    exists c :: c in cs && c.id == id
  }

  /** The load effect: the stored collection, or nothing when it is absent or
      does not parse. */
  function Load(stored: Stored): (r: seq<Client>)
    ensures stored.Serialized? ==> Serialized(r) == stored
    ensures !stored.Serialized? ==> r == []
  {
    match stored
    case Serialized(cs) => cs
    case _ => []
  }

  /** The state once both mount effects have run: the collection loaded, then
      written back whole (which replaces an unparsable entry by the empty list). */
  function Mount(stored: Stored): (s: AppState)
    ensures s.view == List && s.selected == None
    ensures s.store == Serialized(s.clients)
    ensures stored.Serialized? ==> s.clients == stored.clients
    ensures !stored.Serialized? ==> s.clients == []
  {
    var cs := Load(stored);
    AppState(cs, List, None, Serialized(cs))
  }

  /** `setClients` followed by the save effect, which writes the whole collection. */
  function SetClients(s: AppState, cs: seq<Client>): AppState
  {
    s.(clients := cs, store := Serialized(cs))
  }

  /** The edit-save update: every entry carrying the saved identifier becomes the
      saved client; the others stay where they are. */
  function ReplaceById(cs: seq<Client>, client: Client): (r: seq<Client>)
    ensures |r| == |cs|
    ensures forall i :: 0 <= i < |cs| ==> r[i] == if cs[i].id == client.id then client else cs[i]
    decreases |cs|
  {
    if |cs| == 0 then []
    else [if cs[0].id == client.id then client else cs[0]] + ReplaceById(cs[1..], client)
  }

  function IdIsNot(id: string): Client -> bool
  {
    (c: Client) => c.id != id
  }

  lemma PrependUniqueIds(c: Client, cs: seq<Client>)
    requires UniqueIds(cs) && !HasId(cs, c.id)
    ensures UniqueIds([c] + cs)
  {
  }

  lemma {:induction false} KeepUniqueIds(cs: seq<Client>, p: Client -> bool)
    requires UniqueIds(cs)
    ensures UniqueIds(Keep(cs, p))
    decreases |cs|
  {
    if |cs| > 0 {
      var rest := Keep(cs[1..], p);
      KeepUniqueIds(cs[1..], p);
      if p(cs[0]) {
        forall x | x in rest
          ensures x.id != cs[0].id
        {
          var k :| 0 <= k < |cs[1..]| && cs[1..][k] == x;
          assert cs[k + 1] == x;
        }
        PrependUniqueIds(cs[0], rest);
        assert Keep(cs, p) == [cs[0]] + rest;
      } else {
        assert Keep(cs, p) == rest;
      }
    }
  }

  /** `handleSaveClient`. With a selected client on the edit screen, every entry
      carrying the saved identifier is replaced and the details screen shows the
      saved record; otherwise the record is prepended and the list is shown. */
  function SaveClient(s: AppState, client: Client): (r: AppState)
    ensures r.store == Serialized(r.clients)
    ensures s.view == Edit && s.selected.Some? ==>
      && |r.clients| == |s.clients|
      && (forall i :: 0 <= i < |s.clients| ==>
            r.clients[i] == if s.clients[i].id == client.id then client else s.clients[i])
      && (!HasId(s.clients, client.id) ==> r.clients == s.clients)
      && (UniqueIds(s.clients) ==> UniqueIds(r.clients))
      && r.selected == Some(client)
      && r.view == Details
    ensures !(s.view == Edit && s.selected.Some?) ==>
      && r.clients == [client] + s.clients
      && |r.clients| == |s.clients| + 1
      && (UniqueIds(s.clients) && !HasId(s.clients, client.id) ==> UniqueIds(r.clients))
      && r.selected == s.selected
      && r.view == List
  {
    if s.view == Edit && s.selected.Some? then
      SetClients(s, ReplaceById(s.clients, client)).(selected := Some(client), view := Details)
    else
      SetClients(s, [client] + s.clients).(view := List)
  }

  /** `handleDeleteClient`. `confirmed` is the user's answer to the confirmation
      prompt; declining changes nothing. */
  function DeleteClient(s: AppState, id: string, confirmed: bool): (r: AppState)
    ensures !confirmed ==> r == s
    ensures confirmed ==>
      && IsSubsequence(r.clients, s.clients)
      && (forall c :: c in r.clients <==> c in s.clients && c.id != id)
      && (forall c :: multiset(r.clients)[c] == if c.id != id then multiset(s.clients)[c] else 0)
      && (!HasId(s.clients, id) ==> r.clients == s.clients)
      && (UniqueIds(s.clients) ==> UniqueIds(r.clients))
      && r.store == Serialized(r.clients)
      && r.selected == None
      && r.view == List
  {
    if !confirmed then s
    else
      KeepIsSubsequence(s.clients, IdIsNot(id));
      KeepCounts(s.clients, IdIsNot(id));
      KeepAll(s.clients, IdIsNot(id));
      var remaining := Keep(s.clients, IdIsNot(id));
      assert UniqueIds(s.clients) ==> UniqueIds(remaining) by {
        if UniqueIds(s.clients) {
          KeepUniqueIds(s.clients, IdIsNot(id));
        }
      }
      SetClients(s, remaining).(view := List, selected := None)
  }

  /** The user actions of the four screens and the navbar. */
  datatype Event =
    | Select(client: Client)                 // list: a card is clicked
    | AddNew                                 // list: "new client"
    | CancelAdd                              // add form: cancel
    | Back                                   // details: back to the list
    | StartEdit(client: Client)              // details: edit
    | CancelEdit                             // edit form: cancel
    | SubmitForm(form: ClientForm.FormState, freshId: string, now: int)  // add or edit form: save
    | Delete(id: string, confirmed: bool)   // never wired to a screen
    | Home                                   // navbar title

  /** The state after one event; `freshId` and `now` stand for `crypto.randomUUID()`
      and `Date.now()`. */
  function Step(s: AppState, e: Event): (r: AppState)
    ensures s.store == Serialized(s.clients) ==> r.store == Serialized(r.clients)
    ensures !e.SubmitForm? && !e.Delete? ==> r.clients == s.clients && r.store == s.store
    ensures e.SubmitForm? && e.form.name == "" ==> r == s
    ensures e.Delete? && !e.confirmed ==> r == s
  {
    match e
    case Select(c) => s.(selected := Some(c), view := Details)
    case AddNew => s.(selected := None, view := Add)
    case CancelAdd => s.(view := List)
    case Back => s.(view := List)
    case StartEdit(c) => s.(selected := Some(c), view := Edit)
    case CancelEdit => s.(view := Details)
    case SubmitForm(form, freshId, now) =>
      // only the edit screen passes `initialData`
      var initialData := if s.view == Edit then s.selected else None;
      (match ClientForm.Submit(form, initialData, freshId, now)
       case None => s
       case Some(c) => SaveClient(s, c))
    case Delete(id, confirmed) => DeleteClient(s, id, confirmed)
    case Home => s.(view := List)
  }

  /** The events the rendered screen offers. A card can only show a client of the
      collection; the details screen hands its own client to edit; a fresh
      identifier is one the collection does not use. No screen is given
      `handleDeleteClient`, so deletion is never offered. */
  ghost predicate Offered(s: AppState, e: Event)
    ensures e.Delete? ==> !Offered(s, e)
    ensures e.Home? ==> Offered(s, e)
    ensures Offered(s, e) && (e.Select? || e.AddNew?) ==> s.view == List
    ensures Offered(s, e) && e.CancelAdd? ==> s.view == Add
    ensures Offered(s, e) && (e.Back? || e.StartEdit?) ==> s.view == Details && s.selected.Some?
    ensures Offered(s, e) && e.CancelEdit? ==> s.view == Edit
    ensures Offered(s, e) && e.SubmitForm? ==> s.view == Add || s.view == Edit
  {
    match e
    case Select(c) => s.view == List && c in s.clients
    case AddNew => s.view == List
    case CancelAdd => s.view == Add
    case Back => s.view == Details && s.selected.Some?
    case StartEdit(c) => s.view == Details && s.selected == Some(c)
    case CancelEdit => s.view == Edit
    case SubmitForm(_, freshId, _) => s.view == Edit || (s.view == Add && !HasId(s.clients, freshId))
    case Delete(_, _) => false
    case Home => true
  }

  /** What holds between events: the store mirrors the collection, identifiers
      are unique, and the details and edit screens concern a client of the
      collection. */
  ghost predicate Inv(s: AppState)
  {
    && s.store == Serialized(s.clients)
    && UniqueIds(s.clients)
    && (s.view == Details || s.view == Edit ==> s.selected.Some? && s.selected.value in s.clients)
  }

  /** Every event, offered or not, keeps the store equal to the collection. */
  lemma StepKeepsStoreInSync(s: AppState, e: Event)
    requires s.store == Serialized(s.clients)
    ensures Step(s, e).store == Serialized(Step(s, e).clients)
  {
  }

  lemma MountEstablishesInv(stored: Stored)
    requires stored.Serialized? ==> UniqueIds(stored.clients)
    ensures Inv(Mount(stored))
  {
  }

  lemma StepPreservesInv(s: AppState, e: Event)
    requires Inv(s) && Offered(s, e)
    ensures Inv(Step(s, e))
  {
  }

  /** Deleting keeps the invariant too, should a screen ever offer it. */
  lemma DeletePreservesInv(s: AppState, id: string, confirmed: bool)
    requires Inv(s)
    ensures Inv(DeleteClient(s, id, confirmed))
  {
  }

  function Run(s: AppState, es: seq<Event>): AppState
    decreases |es|
  {
    if |es| == 0 then s else Run(Step(s, es[0]), es[1..])
  }

  /** Each event is offered by the screen it reaches. */
  ghost predicate Admissible(s: AppState, es: seq<Event>)
    decreases |es|
  {
    |es| == 0 || (Offered(s, es[0]) && Admissible(Step(s, es[0]), es[1..]))
  }

  lemma {:induction false} RunPreservesInv(s: AppState, es: seq<Event>)
    requires Inv(s) && Admissible(s, es)
    ensures Inv(Run(s, es))
    decreases |es|
  {
    if |es| > 0 {
      StepPreservesInv(s, es[0]);
      RunPreservesInv(Step(s, es[0]), es[1..]);
    }
  }

  /** Whatever offered events happen, reloading the store gives back the
      collection held in memory. */
  lemma ReloadAfterRun(s: AppState, es: seq<Event>)
    requires Inv(s) && Admissible(s, es)
    ensures Mount(Run(s, es).store).clients == Run(s, es).clients
  {
    RunPreservesInv(s, es);
  }

  /** Entering the edit screen and cancelling restores the details screen exactly. */
  lemma EditThenCancel(s: AppState, c: Client)
    requires s.view == Details && s.selected == Some(c)
    ensures Step(Step(s, StartEdit(c)), CancelEdit) == s
  {
  }

  /** The callbacks of the list, add, details and edit screens and of the navbar. */
  lemma NavigationTransitions(s: AppState, c: Client)
    ensures Step(s, Select(c)) == s.(view := Details, selected := Some(c))
    ensures Step(s, AddNew) == s.(view := Add, selected := None)
    ensures Step(s, CancelAdd) == s.(view := List)
    ensures Step(s, Back) == s.(view := List)
    ensures Step(s, StartEdit(c)) == s.(view := Edit, selected := Some(c))
    ensures Step(s, CancelEdit) == s.(view := Details)
    ensures Step(s, Home) == s.(view := List)
  {
  }

  /** Saving the edit form rewrites the selected entry in place: it keeps its
      identifier, creation time and position, takes the form's fields, and
      becomes the selected client; no other entry changes. */
  lemma EditSubmitUpdatesEntry(s: AppState, form: ClientForm.FormState, freshId: string, now: int, k: nat)
    requires Inv(s) && s.view == Edit && form.name != ""
    requires k < |s.clients| && s.selected == Some(s.clients[k])
    ensures
      var old_ := s.clients[k];
      var updated := Client(old_.id, form.name, form.phoneNumber, form.measurements, old_.createdAt);
      var r := Step(s, SubmitForm(form, freshId, now));
      && r.clients == s.clients[k := updated]
      && r.selected == Some(updated)
      && r.view == Details
  {
  }

  /** Saving the add form puts a new record with the fresh identifier and the
      current time at the front and returns to the list. */
  lemma AddSubmitPrepends(s: AppState, form: ClientForm.FormState, freshId: string, now: int)
    requires s.view == Add && form.name != ""
    ensures
      var r := Step(s, SubmitForm(form, freshId, now));
      && r.clients == [Client(freshId, form.name, form.phoneNumber, form.measurements, now)] + s.clients
      && r.view == List
      && r.store == Serialized(r.clients)
  {
  }

  /** A worked session: add a client, open it, change the waist, save, then
      delete it; the collection is empty again and the store says so. */
  lemma ExampleSession()
    ensures
      var m := Measurements("80", "", "", "", "", "", "");
      var ali := Client("u1", "Ali Rezaei", "0912", m, 1000);
      var edited := ali.(measurements := m.(waist := "82"));
      var s1 := Step(Step(Mount(Absent), AddNew), SubmitForm(ClientForm.FormState("Ali Rezaei", "0912", m), "u1", 1000));
      var s2 := Step(Step(Step(s1, Select(ali)), StartEdit(ali)),
                     SubmitForm(ClientForm.FormState("Ali Rezaei", "0912", m.(waist := "82")), "u2", 2000));
      var s3 := Step(s2, Delete("u1", true));
      && s1.clients == [ali] && s1.view == List
      && s2.clients == [edited] && s2.view == Details && s2.selected == Some(edited)
      && s3.clients == [] && s3.store == Serialized([]) && s3.view == List
  {
    var m := Measurements("80", "", "", "", "", "", "");
    var ali := Client("u1", "Ali Rezaei", "0912", m, 1000);
    var edited := ali.(measurements := m.(waist := "82"));
    var s0 := Step(Mount(Absent), AddNew);
    assert s0.clients == [] && s0.view == Add;
    var s1 := Step(s0, SubmitForm(ClientForm.FormState("Ali Rezaei", "0912", m), "u1", 1000));
    assert s1.clients == [ali];
    var s2 := Step(Step(s1, Select(ali)), StartEdit(ali));
    assert s2.clients == [ali] && s2.view == Edit && s2.selected == Some(ali);
    var s3 := Step(s2, SubmitForm(ClientForm.FormState("Ali Rezaei", "0912", m.(waist := "82")), "u2", 2000));
    assert s3.clients == [edited];
    var s4 := Step(s3, Delete("u1", true));
    assert !(edited in s4.clients);
  }

}
