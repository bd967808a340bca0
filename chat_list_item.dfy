/**
 * One sidebar entry (`ChatListItem`): its rename mode and draft title, and
 * the menu items that dispatch store actions for its chat.
 */
module ChatListItem {
  import opened Wrappers
  import opened Text
  import opened Chats

  /** `handleRename`'s guard: the rename it dispatches, if the draft is not blank. */
  function RenameRequest(id: string, draft: string): (r: Option<Action>)
    ensures r.Some? <==> !AllWhitespace(draft)
    ensures r.Some? ==> r.value == Rename(id, draft)
  {
    BlankIffAllWhitespace(draft);
    if Trim(draft) != [] then Some(Rename(id, draft)) else None
  }

  /** The Pin/Unpin item. */
  function PinMenuAction(id: string, isPinned: bool): Action
  {
    if isPinned then Unpin(id) else Pin(id)
  }

  /** The Archive/Unarchive item. */
  function ArchiveMenuAction(id: string, isArchived: bool): Action
  {
    if isArchived then Unarchive(id) else Archive(id)
  }

  /** The Delete item. */
  function DeleteMenuAction(id: string): Action
  {
    Remove(id)
  }

  /** The action menu is rendered only when the sidebar is expanded and no rename is in progress. */
  predicate MenuOffered(isCollapsed: bool, isRenaming: bool)
  {
    !isCollapsed && !isRenaming
  }

  /**
   * The Pin item flips the flag the item shows: every chat with this id ends
   * up with the opposite of `isPinned`, every other chat is unchanged.
   */
  lemma PinMenuToggles(chats: seq<Chat>, id: string, isPinned: bool)
    ensures var r := Dispatch(chats, PinMenuAction(id, isPinned));
      |r| == |chats|
      && (forall k :: 0 <= k < |chats| && chats[k].id == id ==> r[k] == chats[k].(isPinned := !isPinned))
      && (forall k :: 0 <= k < |chats| && chats[k].id != id ==> r[k] == chats[k])
  {
  }

  /** The Archive item flips the archived flag the item shows, for this id only. */
  lemma ArchiveMenuToggles(chats: seq<Chat>, id: string, isArchived: bool)
    ensures var r := Dispatch(chats, ArchiveMenuAction(id, isArchived));
      |r| == |chats|
      && (forall k :: 0 <= k < |chats| && chats[k].id == id ==> r[k] == chats[k].(isArchived := !isArchived))
      && (forall k :: 0 <= k < |chats| && chats[k].id != id ==> r[k] == chats[k])
  {
  }

  /** The Delete item removes this item's chat, and every other chat with its id. */
  lemma DeleteMenuRemoves(chats: seq<Chat>, id: string)
    ensures forall c :: c in Dispatch(chats, DeleteMenuAction(id)) <==> c in chats && c.id != id
  {
  }

  /** An accepted rename stores the draft as typed, untrimmed, on every chat with this id. */
  lemma RenameStoresDraft(chats: seq<Chat>, id: string, draft: string)
    requires !AllWhitespace(draft)
    ensures RenameRequest(id, draft) == Some(Rename(id, draft))
    ensures forall k :: 0 <= k < |chats| && chats[k].id == id ==> Dispatch(chats, Rename(id, draft))[k].title == draft
  {
  }

  /**
   * The component's props (`id`, `title`, the sidebar's collapsed flag and the
   * chat's two flags) and its own state (`isRenaming`, the draft `newTitle`).
   */
  class ListItem {
    const id: string
    var title: string
    var isCollapsed: bool
    var isPinned: bool
    var isArchived: bool
    var isRenaming: bool
    var newTitle: string

    /** Mounting: not renaming, the draft starts as the title. */
    constructor (id: string, title: string, isCollapsed: bool, isPinned: bool, isArchived: bool)
      ensures this.id == id && this.title == title && this.isCollapsed == isCollapsed
      ensures this.isPinned == isPinned && this.isArchived == isArchived
      ensures !isRenaming && newTitle == title
    {
      this.id := id;
      this.title := title;
      this.isCollapsed := isCollapsed;
      this.isPinned := isPinned;
      this.isArchived := isArchived;
      isRenaming := false;
      newTitle := title;
    }

    /** A re-render with new props keeps the component's state, draft included. */
    method ReceiveProps(title: string, isCollapsed: bool, isPinned: bool, isArchived: bool)
      modifies this
      ensures this.title == title && this.isCollapsed == isCollapsed
      ensures this.isPinned == isPinned && this.isArchived == isArchived
      ensures isRenaming == old(isRenaming) && newTitle == old(newTitle)
    {
      this.title := title;
      this.isCollapsed := isCollapsed;
      this.isPinned := isPinned;
      this.isArchived := isArchived;
    }

    /** The rename input's `onChange`. */
    method EditDraft(value: string)
      modifies this`newTitle
      ensures newTitle == value
    {
      newTitle := value;
    }

    /**
     * `handleRename` (on Enter or blur): a blank draft dispatches nothing and
     * stays in rename mode; otherwise the draft, untrimmed, is dispatched and
     * rename mode ends.
     */
    method HandleRename() returns (dispatched: Option<Action>)
      modifies this`isRenaming
      ensures dispatched == RenameRequest(id, newTitle)
      ensures isRenaming == (old(isRenaming) && AllWhitespace(newTitle))
    {
      dispatched := RenameRequest(id, newTitle);
      if dispatched.Some? {
        isRenaming := false;
      }
    }

    /** `startRenaming`: rename mode, with the draft reset to the current title. */
    method StartRenaming()
      modifies this`isRenaming, this`newTitle
      ensures isRenaming && newTitle == title
      ensures !MenuOffered(isCollapsed, isRenaming)
    {
      isRenaming := true;
      newTitle := title;
    }

    /**
     * A click on a menu item: Rename starts rename mode, the other three
     * dispatch their store action. Nothing happens while the menu is not offered.
     */
    method PickMenuItem(item: MenuItem) returns (dispatched: Option<Action>)
      modifies this`isRenaming, this`newTitle
      ensures dispatched.Some? <==> old(MenuOffered(isCollapsed, isRenaming)) && !item.RenameItem?
      ensures item.PinItem? && dispatched.Some? ==> dispatched.value == PinMenuAction(id, isPinned)
      ensures item.ArchiveItem? && dispatched.Some? ==> dispatched.value == ArchiveMenuAction(id, isArchived)
      ensures item.DeleteItem? && dispatched.Some? ==> dispatched.value == DeleteMenuAction(id)
      ensures if item.RenameItem? && old(MenuOffered(isCollapsed, isRenaming))
        then isRenaming && newTitle == title
        else isRenaming == old(isRenaming) && newTitle == old(newTitle)
    {
      dispatched := None;
      if MenuOffered(isCollapsed, isRenaming) {
        match item
        case PinItem => dispatched := Some(PinMenuAction(id, isPinned));
        case RenameItem => StartRenaming();
        case ArchiveItem => dispatched := Some(ArchiveMenuAction(id, isArchived));
        case DeleteItem => dispatched := Some(DeleteMenuAction(id));
      }
    }
  }

  /** The four entries of the item's action menu. */
  datatype MenuItem = PinItem | RenameItem | ArchiveItem | DeleteItem
}
