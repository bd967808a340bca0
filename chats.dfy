/**
 * The conversation store (`useChats`): a list of chat records and the actions
 * that replace it. Every action builds a new list from the old one, so the
 * store is a sequence and each action a function on it.
 */
module Chats {
  import opened JsArray

  /**
   * One sidebar conversation. `isPinned` and `isArchived` are read by the
   * filters as booleans; a chat created without them (the "New chat" button)
   * carries `false`, which is how the filters treat an absent flag.
   */
  datatype Chat = Chat(id: string, title: string, timestamp: int, isPinned: bool, isArchived: bool)

  /** What an id-keyed `map` action does to a matching chat. */
  datatype Edit = SetPinned(pinned: bool) | SetArchived(archived: bool) | SetTitle(title: string)

  /** The actions the store offers, as its callers dispatch them. */
  datatype Action =
    | Add(chat: Chat)
    | Remove(id: string)
    | Pin(id: string)
    | Unpin(id: string)
    | Archive(id: string)
    | Unarchive(id: string)
    | Rename(id: string, newTitle: string)

  /** `{ ...chat, field: value }` for the one field the edit names. */
  function ApplyEdit(c: Chat, e: Edit): (r: Chat)
  {
    match e
    case SetPinned(b) => c.(isPinned := b)
    case SetArchived(b) => c.(isArchived := b)
    case SetTitle(t) => c.(title := t)
  }

  /** `chats.map(chat => chat.id === id ? edit(chat) : chat)`. */
  function EditWhere(chats: seq<Chat>, id: string, e: Edit): (r: seq<Chat>)
    ensures |r| == |chats|
    ensures forall k :: 0 <= k < |chats| ==>
      r[k] == if chats[k].id == id then ApplyEdit(chats[k], e) else chats[k]
  {
    if chats == [] then []
    else [if chats[0].id == id then ApplyEdit(chats[0], e) else chats[0]] + EditWhere(chats[1..], id, e)
  }

  /** The ids of a list of chats, in order. */
  function Ids(chats: seq<Chat>): (r: seq<string>)
    ensures |r| == |chats| && forall k :: 0 <= k < |chats| ==> r[k] == chats[k].id
  {
    seq(|chats|, k requires 0 <= k < |chats| => chats[k].id)
  }

  /** The seeded store: four chats, ids "1" to "4", oldest first, none pinned or archived. */
  function InitialChats(now: int): (r: seq<Chat>)
    ensures Ids(r) == ["1", "2", "3", "4"]
    ensures forall k :: 0 <= k < |r| ==> !r[k].isPinned && !r[k].isArchived
    ensures forall k :: 0 <= k < |r| ==> r[k].timestamp == now - 4000 + 1000 * k
  {
    [ Chat("1", "Dinosaur Essay and Discussion", now - 4000, false, false),
      Chat("2", "Gemini Introduces Itself", now - 3000, false, false),
      Chat("3", "Secure Password Hashing in ...", now - 2000, false, false),
      Chat("4", "A Poem for Mr. Mystery", now - 1000, false, false) ]
  }

  /** `addChat`: the new chat goes first, without any duplicate-id check. */
  function AddChat(chats: seq<Chat>, chat: Chat): (r: seq<Chat>)
    ensures |r| == |chats| + 1
    ensures r[0] == chat
    ensures forall k :: 0 <= k < |chats| ==> r[k + 1] == chats[k]
  {
    [chat] + chats
  }

  /** The test `removeChat` filters with. */
  function OtherId(id: string): Chat -> bool
  {
    (c: Chat) => c.id != id
  }

  /** `removeChat`: drops every chat with this id and keeps the rest. */
  function RemoveChat(chats: seq<Chat>, id: string): (r: seq<Chat>)
    ensures |r| <= |chats|
    ensures forall c :: c in r <==> c in chats && c.id != id
  {
    Filter(chats, OtherId(id))
  }

  /** `pinChat`. */
  function PinChat(chats: seq<Chat>, id: string): (r: seq<Chat>)
    ensures |r| == |chats|
    ensures forall k :: 0 <= k < |chats| ==>
      r[k].isPinned == (chats[k].isPinned || chats[k].id == id) && r[k] == chats[k].(isPinned := r[k].isPinned)
  {
    EditWhere(chats, id, SetPinned(true))
  }

  /** `unpinChat`. */
  function UnpinChat(chats: seq<Chat>, id: string): (r: seq<Chat>)
    ensures |r| == |chats|
    ensures forall k :: 0 <= k < |chats| ==>
      r[k].isPinned == (chats[k].isPinned && chats[k].id != id) && r[k] == chats[k].(isPinned := r[k].isPinned)
  {
    EditWhere(chats, id, SetPinned(false))
  }

  /** `archiveChat`. */
  function ArchiveChat(chats: seq<Chat>, id: string): (r: seq<Chat>)
    ensures |r| == |chats|
    ensures forall k :: 0 <= k < |chats| ==>
      r[k].isArchived == (chats[k].isArchived || chats[k].id == id) && r[k] == chats[k].(isArchived := r[k].isArchived)
  {
    EditWhere(chats, id, SetArchived(true))
  }

  /** `unarchiveChat`. */
  function UnarchiveChat(chats: seq<Chat>, id: string): (r: seq<Chat>)
    ensures |r| == |chats|
    ensures forall k :: 0 <= k < |chats| ==>
      r[k].isArchived == (chats[k].isArchived && chats[k].id != id) && r[k] == chats[k].(isArchived := r[k].isArchived)
  {
    EditWhere(chats, id, SetArchived(false))
  }

  /** `renameChat`: takes the new title as given; it does not check for blank titles. */
  function RenameChat(chats: seq<Chat>, id: string, newTitle: string): (r: seq<Chat>)
    ensures |r| == |chats|
    ensures forall k :: 0 <= k < |chats| ==>
      r[k].title == (if chats[k].id == id then newTitle else chats[k].title) && r[k] == chats[k].(title := r[k].title)
  {
    EditWhere(chats, id, SetTitle(newTitle))
  }

  /** The store after one dispatched action. */
  function Dispatch(chats: seq<Chat>, a: Action): seq<Chat>
  {
    match a
    case Add(c) => AddChat(chats, c)
    case Remove(id) => RemoveChat(chats, id)
    case Pin(id) => PinChat(chats, id)
    case Unpin(id) => UnpinChat(chats, id)
    case Archive(id) => ArchiveChat(chats, id)
    case Unarchive(id) => UnarchiveChat(chats, id)
    case Rename(id, t) => RenameChat(chats, id, t)
  }

  // ---------------------------------------------------------------------------
  // Properties of the store

  /** `addChat` puts the new chat in front of the old list, unchanged and in order. */
  lemma AddChatPrepends(chats: seq<Chat>, chat: Chat)
    ensures AddChat(chats, chat)[1..] == chats
    ensures Ids(AddChat(chats, chat)) == [chat.id] + Ids(chats)
  {
    assert AddChat(chats, chat)[1..] == chats;
  }

  /** Removing an id no chat has leaves the list as it was. */
  lemma RemoveAbsent(chats: seq<Chat>, id: string)
    requires forall c :: c in chats ==> c.id != id
    ensures RemoveChat(chats, id) == chats
  {
    FilterAllKept(chats, OtherId(id));
  }

  /**
   * `removeChat` keeps the relative order of the survivors: it acts on each
   * part of a list separately, and on a single chat it keeps it exactly when
   * the ids differ.
   */
  lemma RemovePreservesOrder(a: seq<Chat>, b: seq<Chat>, id: string, c: Chat)
    ensures RemoveChat(a + b, id) == RemoveChat(a, id) + RemoveChat(b, id)
    ensures RemoveChat([c], id) == if c.id == id then [] else [c]
  {
    FilterConcat(a, b, OtherId(id));
  }

  /** `removeChat` drops exactly the copies whose id matches, every one of them. */
  lemma RemoveCounts(chats: seq<Chat>, id: string, c: Chat)
    ensures multiset(RemoveChat(chats, id))[c] == if c.id == id then 0 else multiset(chats)[c]
  {
    FilterMultiset(chats, OtherId(id), c);
  }

  /** Removing the same id twice is removing it once. */
  lemma RemoveIdempotent(chats: seq<Chat>, id: string)
    ensures RemoveChat(RemoveChat(chats, id), id) == RemoveChat(chats, id)
  {
    FilterIdempotent(chats, OtherId(id));
  }

  /** Every `map` action keeps the sequence of ids. */
  lemma EditPreservesIds(chats: seq<Chat>, id: string, e: Edit)
    ensures Ids(EditWhere(chats, id, e)) == Ids(chats)
  {
    assert forall k :: 0 <= k < |chats| ==> Ids(EditWhere(chats, id, e))[k] == Ids(chats)[k];
  }

  /** Applying an edit twice is applying it once. */
  lemma EditIdempotent(chats: seq<Chat>, id: string, e: Edit)
    ensures EditWhere(EditWhere(chats, id, e), id, e) == EditWhere(chats, id, e)
  {
    var once := EditWhere(chats, id, e);
    assert forall k :: 0 <= k < |chats| ==> EditWhere(once, id, e)[k] == once[k];
  }

  /** pin, unpin, archive and unarchive are idempotent. */
  lemma FlagActionsIdempotent(chats: seq<Chat>, id: string)
    ensures PinChat(PinChat(chats, id), id) == PinChat(chats, id)
    ensures UnpinChat(UnpinChat(chats, id), id) == UnpinChat(chats, id)
    ensures ArchiveChat(ArchiveChat(chats, id), id) == ArchiveChat(chats, id)
    ensures UnarchiveChat(UnarchiveChat(chats, id), id) == UnarchiveChat(chats, id)
  {
    EditIdempotent(chats, id, SetPinned(true));
    EditIdempotent(chats, id, SetPinned(false));
    EditIdempotent(chats, id, SetArchived(true));
    EditIdempotent(chats, id, SetArchived(false));
  }

  /** The later of pin and unpin on the same id decides the flag. */
  lemma UnpinAfterPin(chats: seq<Chat>, id: string)
    ensures UnpinChat(PinChat(chats, id), id) == UnpinChat(chats, id)
    ensures PinChat(UnpinChat(chats, id), id) == PinChat(chats, id)
  {
    var a, b := UnpinChat(PinChat(chats, id), id), UnpinChat(chats, id);
    assert forall k :: 0 <= k < |chats| ==> a[k] == b[k];
    var c, d := PinChat(UnpinChat(chats, id), id), PinChat(chats, id);
    assert forall k :: 0 <= k < |chats| ==> c[k] == d[k];
  }

  /** Pinning then unpinning a chat that was not pinned restores the list. */
  lemma PinUnpinRoundTrip(chats: seq<Chat>, id: string)
    requires forall c :: c in chats && c.id == id ==> !c.isPinned
    ensures UnpinChat(PinChat(chats, id), id) == chats
  {
    var r := UnpinChat(PinChat(chats, id), id);
    assert forall k :: 0 <= k < |chats| ==> r[k] == chats[k];
  }

  /** Archiving then unarchiving a chat that was not archived restores the list. */
  lemma ArchiveUnarchiveRoundTrip(chats: seq<Chat>, id: string)
    requires forall c :: c in chats && c.id == id ==> !c.isArchived
    ensures UnarchiveChat(ArchiveChat(chats, id), id) == chats
  {
    var r := UnarchiveChat(ArchiveChat(chats, id), id);
    assert forall k :: 0 <= k < |chats| ==> r[k] == chats[k];
  }

  /** An action on an id that no chat has changes nothing. */
  lemma EditAbsent(chats: seq<Chat>, id: string, e: Edit)
    requires forall c :: c in chats ==> c.id != id
    ensures EditWhere(chats, id, e) == chats
  {
    var r := EditWhere(chats, id, e);
    assert forall k :: 0 <= k < |chats| ==> r[k] == chats[k];
  }

  /**
   * Because `addChat` accepts a duplicate id, a later action on that id
   * reaches both the new chat and the older one.
   */
  lemma DuplicateIdsEditedTogether(chats: seq<Chat>, chat: Chat, k: nat)
    requires k < |chats| && chats[k].id == chat.id
    ensures var r := PinChat(AddChat(chats, chat), chat.id); r[0].isPinned && r[k + 1].isPinned
    ensures RemoveChat(AddChat(chats, chat), chat.id) == RemoveChat(chats, chat.id)
  {
    assert AddChat(chats, chat) == [chat] + chats;
    FilterConcat([chat], chats, OtherId(chat.id));
  }
}
