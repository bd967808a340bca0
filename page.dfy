/**
 * The page (`app/page.tsx`): the glow-settings store, the sidebar's grouping
 * of chats into pinned, recent and archived, the "load more" window, the
 * "New chat" button, and the simulated streaming reply.
 */
module Page {
  import opened Wrappers
  import opened JsArray
  import opened Text
  import opened Chats
  import opened ChatInput

  // ---------------------------------------------------------------------------
  // Glow-effect settings store

  /** The cosmetic glow settings; the numeric ones are only stored, never computed with. */
  datatype GlowSettings = GlowSettings(
    enabled: bool, color: string, gradient: Option<string>,
    brightness: real, speed: real, radius: real)

  /**
   * A partial settings object: None is a missing key. `gradient` is itself
   * optional, so `Some(None)` is the key present with `undefined`.
   */
  datatype GlowPatch = GlowPatch(
    enabled: Option<bool>, color: Option<string>, gradient: Option<Option<string>>,
    brightness: Option<real>, speed: Option<real>, radius: Option<real>)

  /** The store's starting settings: off, orange-red, no gradient. */
  function InitialGlow(): (r: GlowSettings)
    ensures !r.enabled && r.color == "#FF4500" && r.gradient.None?
    ensures r.brightness == 1.0 && r.speed == 3.0 && r.radius == 20.0
  {
    GlowSettings(false, "#FF4500", None, 1.0, 3.0, 20.0)
  }

  /** One key of an object spread: the given value if the key is present. */
  function Override<T>(current: T, given: Option<T>): T
  {
    match given
    case Some(v) => v
    case None => current
  }

  /** `updateSettings`: `{ ...state, ...settings }`. */
  function UpdateSettings(s: GlowSettings, p: GlowPatch): (r: GlowSettings)
    ensures p.enabled.Some? ==> r.enabled == p.enabled.value
    ensures p.enabled.None? ==> r.enabled == s.enabled
    ensures p.color.Some? ==> r.color == p.color.value
    ensures p.color.None? ==> r.color == s.color
    ensures p.gradient.Some? ==> r.gradient == p.gradient.value
    ensures p.gradient.None? ==> r.gradient == s.gradient
    ensures p.brightness.Some? ==> r.brightness == p.brightness.value
    ensures p.brightness.None? ==> r.brightness == s.brightness
    ensures p.speed.Some? ==> r.speed == p.speed.value
    ensures p.speed.None? ==> r.speed == s.speed
    ensures p.radius.Some? ==> r.radius == p.radius.value
    ensures p.radius.None? ==> r.radius == s.radius
  {
    GlowSettings(
      Override(s.enabled, p.enabled), Override(s.color, p.color), Override(s.gradient, p.gradient),
      Override(s.brightness, p.brightness), Override(s.speed, p.speed), Override(s.radius, p.radius))
  }

  /** The partial with no keys. */
  function EmptyPatch(): GlowPatch
  {
    GlowPatch(None, None, None, None, None, None)
  }

  /** Two partials spread one after the other: keys of `q` win. */
  function MergePatches(p: GlowPatch, q: GlowPatch): (r: GlowPatch)
  {
    GlowPatch(
      if q.enabled.Some? then q.enabled else p.enabled,
      if q.color.Some? then q.color else p.color,
      if q.gradient.Some? then q.gradient else p.gradient,
      if q.brightness.Some? then q.brightness else p.brightness,
      if q.speed.Some? then q.speed else p.speed,
      if q.radius.Some? then q.radius else p.radius)
  }

  /** An empty partial changes nothing, and repeating an update changes nothing more. */
  lemma UpdateEmptyAndIdempotent(s: GlowSettings, p: GlowPatch)
    ensures UpdateSettings(s, EmptyPatch()) == s
    ensures UpdateSettings(UpdateSettings(s, p), p) == UpdateSettings(s, p)
  {
  }

  /** Two updates in a row equal one update with the merged partial. */
  lemma UpdateCompose(s: GlowSettings, p: GlowPatch, q: GlowPatch)
    ensures UpdateSettings(UpdateSettings(s, p), q) == UpdateSettings(s, MergePatches(p, q))
  {
  }

  // ---------------------------------------------------------------------------
  // Sidebar groups and the "load more" window

  /** How many more recent chats "Load more" reveals. */
  const LoadMoreStep: nat := 20

  /** The number of recent chats shown before any "Load more". */
  const InitialVisibleChats: nat := 6

  predicate IsPinnedChat(c: Chat) { c.isPinned }

  predicate IsArchivedChat(c: Chat) { c.isArchived }

  predicate IsUnflagged(c: Chat) { !c.isPinned && !c.isArchived }

  /** The pinned group: every pinned chat, archived or not, in list order. */
  function PinnedGroup(chats: seq<Chat>): (r: seq<Chat>)
    ensures forall c :: c in r <==> c in chats && c.isPinned
  {
    Filter(chats, IsPinnedChat)
  }

  /** The archived group: every archived chat, pinned or not, in list order. */
  function ArchivedGroup(chats: seq<Chat>): (r: seq<Chat>)
    ensures forall c :: c in r <==> c in chats && c.isArchived
  {
    Filter(chats, IsArchivedChat)
  }

  /** The chats eligible for the recent group: neither pinned nor archived. */
  function Unflagged(chats: seq<Chat>): (r: seq<Chat>)
    ensures |r| <= |chats|
    ensures forall c :: c in r <==> c in chats && !c.isPinned && !c.isArchived
  {
    Filter(chats, IsUnflagged)
  }

  /** The recent group: the first `visible` unflagged chats. */
  function RecentGroup(chats: seq<Chat>, visible: nat): (r: seq<Chat>)
    ensures r <= Unflagged(chats)
    ensures |r| == if visible < |Unflagged(chats)| then visible else |Unflagged(chats)|
  {
    Take(Unflagged(chats), visible)
  }

  /** The "Pinned" section is rendered when some chat is pinned (its heading also needs the sidebar expanded). */
  predicate PinnedSectionShown(chats: seq<Chat>)
  {
    exists c :: c in chats && c.isPinned
  }

  /** The "Archived" section is rendered when some chat is archived (its heading also needs the sidebar expanded). */
  predicate ArchivedSectionShown(chats: seq<Chat>)
  {
    exists c :: c in chats && c.isArchived
  }

  /** The "Load more" button is shown while unflagged chats are hidden. */
  predicate LoadMoreShown(chats: seq<Chat>, visible: nat)
  {
    |Unflagged(chats)| > visible
  }

  /** `loadMoreChats`: `Math.min(visible + 20, chats.length)`. */
  function LoadMore(visible: nat, chatCount: nat): (r: nat)
    ensures r <= visible + LoadMoreStep && r <= chatCount
    ensures r == visible + LoadMoreStep || r == chatCount
  {
    if visible + LoadMoreStep < chatCount then visible + LoadMoreStep else chatCount
  }

  /** A section is rendered exactly when its group is not empty. */
  lemma SectionsShownIffNonEmpty(chats: seq<Chat>)
    ensures PinnedSectionShown(chats) <==> PinnedGroup(chats) != []
    ensures ArchivedSectionShown(chats) <==> ArchivedGroup(chats) != []
  {
    if PinnedGroup(chats) != [] { assert PinnedGroup(chats)[0] in PinnedGroup(chats); }
    if ArchivedGroup(chats) != [] { assert ArchivedGroup(chats)[0] in ArchivedGroup(chats); }
  }

  /**
   * Pressing the shown "Load more" button always reveals more, never more
   * than there are chats, and the shown recent group then holds
   * `min(visible + 20, unflagged count)` chats and extends the old one.
   */
  lemma LoadMoreGrows(chats: seq<Chat>, visible: nat)
    requires LoadMoreShown(chats, visible)
    ensures visible < LoadMore(visible, |chats|) <= |chats|
    ensures |RecentGroup(chats, LoadMore(visible, |chats|))|
      == if visible + LoadMoreStep < |Unflagged(chats)| then visible + LoadMoreStep else |Unflagged(chats)|
    ensures RecentGroup(chats, visible) <= RecentGroup(chats, LoadMore(visible, |chats|))
  {
    TakeMonotone(Unflagged(chats), visible, LoadMore(visible, |chats|));
  }

  /**
   * The recent group shares no chat with the other two, while a chat that is
   * both pinned and archived is listed in both of those.
   */
  lemma GroupsOverlap(chats: seq<Chat>, visible: nat, c: Chat)
    ensures c in RecentGroup(chats, visible) ==> c !in PinnedGroup(chats) && c !in ArchivedGroup(chats)
    ensures c in chats && c.isPinned && c.isArchived ==> c in PinnedGroup(chats) && c in ArchivedGroup(chats)
  {
    if c in RecentGroup(chats, visible) {
      assert c in Unflagged(chats) by {
        var i :| 0 <= i < |RecentGroup(chats, visible)| && RecentGroup(chats, visible)[i] == c;
        assert Unflagged(chats)[i] == c;
      }
    }
  }

  /** Pinning a chat moves it from the recent group into the pinned group. */
  lemma PinMovesToPinned(chats: seq<Chat>, id: string, visible: nat, k: nat)
    requires k < |chats| && chats[k].id == id
    ensures PinChat(chats, id)[k] in PinnedGroup(PinChat(chats, id))
    ensures forall c :: c in RecentGroup(PinChat(chats, id), visible) ==> c.id != id
  {
    var after := PinChat(chats, id);
    assert after[k] in after;
    forall c | c in RecentGroup(after, visible) ensures c.id != id {
      GroupsOverlap(after, visible, c);
      var j :| 0 <= j < |after| && after[j] == c;
    }
  }

  /** Unpinning an unarchived chat makes it eligible for the recent group again. */
  lemma UnpinReturnsToRecent(chats: seq<Chat>, id: string, k: nat)
    requires k < |chats| && chats[k].id == id && !chats[k].isArchived
    ensures UnpinChat(chats, id)[k] in Unflagged(UnpinChat(chats, id))
    ensures UnpinChat(chats, id)[k] !in PinnedGroup(UnpinChat(chats, id))
  {
    assert UnpinChat(chats, id)[k] in UnpinChat(chats, id);
  }

  /**
   * Archiving leaves a pinned chat in the pinned group (the pinned filter
   * does not look at `isArchived`) and adds it to the archived group.
   */
  lemma ArchiveKeepsPinned(chats: seq<Chat>, id: string, k: nat)
    requires k < |chats| && chats[k].id == id && chats[k].isPinned
    ensures ArchiveChat(chats, id)[k] in PinnedGroup(ArchiveChat(chats, id))
    ensures ArchiveChat(chats, id)[k] in ArchivedGroup(ArchiveChat(chats, id))
  {
    assert ArchiveChat(chats, id)[k] in ArchiveChat(chats, id);
  }

  /** The "New chat" button: a chat titled "New Chat", neither pinned nor archived, goes first. */
  function NewChat(chats: seq<Chat>, id: string, now: int): (r: seq<Chat>)
    ensures |r| == |chats| + 1
    ensures r[0].title == "New Chat" && r[0].id == id && r[0].timestamp == now
    ensures IsUnflagged(r[0])
    ensures r[1..] == chats
  {
    AddChat(chats, Chat(id, "New Chat", now, false, false))
  }

  /** A new chat heads the recent group whenever the group shows at least one chat. */
  lemma NewChatHeadsRecent(chats: seq<Chat>, id: string, now: int, visible: nat)
    requires visible > 0
    ensures RecentGroup(NewChat(chats, id, now), visible)[0] == Chat(id, "New Chat", now, false, false)
  {
    var c := Chat(id, "New Chat", now, false, false);
    assert NewChat(chats, id, now) == [c] + chats;
    FilterConcat([c], chats, IsUnflagged);
    assert Filter([c], IsUnflagged) == [c];
  }

  // ---------------------------------------------------------------------------
  // Splitting the reply into words and joining them back

  /** `s.split(' ')`: the pieces between single spaces; "" gives [""]. */
  function Split(s: string): (r: seq<string>)
    ensures |r| >= 1
    ensures forall k :: 0 <= k < |r| ==> ' ' !in r[k]
  {
    if s == [] then [[]]
    else
      var rest := Split(s[1..]);
      if s[0] == ' ' then [[]] + rest
      else [[s[0]] + rest[0]] + rest[1..]
  }

  /** `words.join(' ')`. */
  function Join(ws: seq<string>): string
  {
    if ws == [] then []
    else if |ws| == 1 then ws[0]
    else ws[0] + " " + Join(ws[1..])
  }

  /** Joining the words of a split gives back the text. */
  lemma {:induction false} JoinSplit(s: string)
    ensures Join(Split(s)) == s
  {
    if s != [] {
      var rest := Split(s[1..]);
      JoinSplit(s[1..]);
      if s[0] == ' ' {
        assert Split(s) == [[]] + rest;
        assert s == [' '] + s[1..];
      } else {
        var first := [s[0]] + rest[0];
        assert Split(s) == [first] + rest[1..];
        if |rest| == 1 {
          assert Join(rest) == rest[0];
        } else {
          assert Join(rest) == rest[0] + " " + Join(rest[1..]);
          assert ([first] + rest[1..])[1..] == rest[1..];
        }
        assert s == [s[0]] + s[1..];
      }
    }
  }

  /** Splitting text that begins with a space-free word extends that word. */
  lemma {:induction false} SplitPrepend(a: string, t: string)
    requires ' ' !in a
    ensures Split(a + t) == [a + Split(t)[0]] + Split(t)[1..]
  {
    if a != [] {
      assert (a + t)[1..] == a[1..] + t;
      assert a[0] in a;
      SplitPrepend(a[1..], t);
      var st := Split(t);
      var rest := Split(a[1..] + t);
      assert rest[0] == a[1..] + st[0] && rest[1..] == st[1..];
      assert (a + t)[0] == a[0] && a[0] != ' ';
      assert Split(a + t) == [[a[0]] + rest[0]] + rest[1..];
      assert [a[0]] + (a[1..] + st[0]) == a + st[0];
    } else {
      assert a + t == t;
      assert a + Split(t)[0] == Split(t)[0];
      assert Split(t) == [Split(t)[0]] + Split(t)[1..];
    }
  }

  /** Splitting joined space-free words gives back the words. */
  lemma {:induction false} SplitJoin(ws: seq<string>)
    requires |ws| >= 1
    requires forall k :: 0 <= k < |ws| ==> ' ' !in ws[k]
    ensures Split(Join(ws)) == ws
  {
    if |ws| == 1 {
      SplitPrepend(ws[0], []);
      assert ws[0] + [] == ws[0];
    } else {
      var tail := Join(ws[1..]);
      SplitJoin(ws[1..]);
      SplitPrepend(ws[0], " " + tail);
      var spaced := " " + tail;
      assert spaced[0] == ' ' && spaced[1..] == tail;
      assert Split(spaced) == [[]] + Split(tail);
      assert Split(spaced)[0] == [] && Split(spaced)[1..] == ws[1..];
      assert ws[0] + [] == ws[0];
      assert Join(ws) == ws[0] + spaced;
      assert ws == [ws[0]] + ws[1..];
    }
  }

  /** Joining one more word appends a space and the word. */
  lemma {:induction false} JoinSnoc(ws: seq<string>, w: string)
    ensures Join(ws + [w]) == if ws == [] then w else Join(ws) + " " + w
  {
    if |ws| > 1 {
      assert (ws + [w])[1..] == ws[1..] + [w];
      JoinSnoc(ws[1..], w);
    } else if |ws| == 1 {
      assert ws + [w] == [ws[0], w];
    }
  }

  /** The text shown after streaming step `i`: the first `i + 1` words. */
  function Revealed(words: seq<string>, i: nat): string
    requires i < |words|
  {
    Join(words[..i + 1])
  }

  /**
   * Each streaming step extends the previous text by a space and a word, so
   * the shown texts grow strictly, each is a prefix of the reply, and the
   * last one is the reply.
   */
  lemma StreamingPrefixes(reply: string, i: nat)
    requires i + 1 < |Split(reply)|
    ensures var ws := Split(reply);
      Revealed(ws, i + 1) == Revealed(ws, i) + " " + ws[i + 1]
      && |Revealed(ws, i)| < |Revealed(ws, i + 1)|
      && Revealed(ws, i) <= Revealed(ws, i + 1)
  {
    var ws := Split(reply);
    assert ws[..i + 2] == ws[..i + 1] + [ws[i + 1]];
    JoinSnoc(ws[..i + 1], ws[i + 1]);
  }

  /** Every shown text is a prefix of the reply, and the last one is the reply. */
  lemma {:induction false} RevealedPrefixOfReply(reply: string, i: nat)
    requires i < |Split(reply)|
    ensures Revealed(Split(reply), i) <= reply
    ensures i == |Split(reply)| - 1 ==> Revealed(Split(reply), i) == reply
    decreases |Split(reply)| - i
  {
    var ws := Split(reply);
    if i == |ws| - 1 {
      assert ws[..i + 1] == ws;
      JoinSplit(reply);
    } else {
      RevealedPrefixOfReply(reply, i + 1);
      StreamingPrefixes(reply, i);
    }
  }

  // ---------------------------------------------------------------------------
  // Messages and the simulated streaming reply

  datatype Role = User | Assistant

  datatype Message = Message(id: string, content: string, role: Role, timestamp: int)

  /** What one step of the stream leaves observable: the last message's text, and the flag. */
  datatype StepView = StepView(lastContent: string, isStreaming: bool)

  /**
   * One `setMessages` updater of the streaming loop: the last message, if it
   * is the assistant's, gets the first `i + 1` words; nothing else changes.
   */
  function RevealStep(msgs: seq<Message>, words: seq<string>, i: nat): (r: seq<Message>)
    requires i < |words|
    ensures |r| == |msgs|
    ensures forall k :: 0 <= k < |msgs| - 1 ==> r[k] == msgs[k]
    ensures msgs != [] && msgs[|msgs| - 1].role == Assistant ==>
      r[|r| - 1] == msgs[|msgs| - 1].(content := Revealed(words, i))
    ensures !(msgs != [] && msgs[|msgs| - 1].role == Assistant) ==> r == msgs
  {
    if msgs != [] && msgs[|msgs| - 1].role == Assistant
    then msgs[..|msgs| - 1] + [msgs[|msgs| - 1].(content := Revealed(words, i))]
    else msgs
  }

  /** The page's conversation: its messages and whether a reply is streaming. */
  class ChatSession {
    var messages: seq<Message>
    var isStreaming: bool
    var visibleChats: nat
    /** The text of the last message and the flag after each step of the last stream. */
    ghost var steps: seq<StepView>

    constructor ()
      ensures messages == [] && !isStreaming && visibleChats == InitialVisibleChats && steps == []
    {
      messages := [];
      isStreaming := false;
      visibleChats := InitialVisibleChats;
      steps := [];
    }

    /** The "Load more" button's handler. */
    method LoadMoreChats(chats: seq<Chat>)
      modifies this
      ensures visibleChats == LoadMore(old(visibleChats), |chats|)
      ensures messages == old(messages) && isStreaming == old(isStreaming) && steps == old(steps)
    {
      visibleChats := LoadMore(visibleChats, |chats|);
    }

    /**
     * `simulateStreamingResponse`: appends the user's message and an empty
     * assistant message, then reveals the reply word by word into the
     * assistant message while `isStreaming` is set.
     */
    method SimulateStreamingResponse(prompt: string, reply: string, userId: string, aiId: string, userTime: int, aiTime: int)
      modifies this
      ensures messages == old(messages) + [Message(userId, prompt, User, userTime), Message(aiId, reply, Assistant, aiTime)]
      ensures !isStreaming && visibleChats == old(visibleChats)
      ensures |steps| == |Split(reply)| + 1
      ensures steps[0] == StepView("", true)
      ensures forall i :: 0 <= i < |Split(reply)| ==> steps[i + 1] == StepView(Revealed(Split(reply), i), true)
    {
      var userMessage := Message(userId, prompt, User, userTime);
      messages := messages + [userMessage];
      isStreaming := true;
      var aiMessage := Message(aiId, "", Assistant, aiTime);
      messages := messages + [aiMessage];
      var words := Split(reply);
      steps := [StepView(messages[|messages| - 1].content, isStreaming)];
      var i := 0;
      while i < |words|
        invariant 0 <= i <= |words|
        invariant isStreaming && visibleChats == old(visibleChats)
        invariant messages == old(messages) + [userMessage, aiMessage.(content := Join(words[..i]))]
        invariant |steps| == i + 1 && steps[0] == StepView("", true)
        invariant forall j :: 0 <= j < i ==> steps[j + 1] == StepView(Revealed(words, j), true)
      {
        messages := RevealStep(messages, words, i);
        steps := steps + [StepView(messages[|messages| - 1].content, isStreaming)];
        i := i + 1;
      }
      assert words[..|words|] == words;
      JoinSplit(reply);
      isStreaming := false;
    }

    /**
     * A submit from the input box: the guard, then the page's `handleSubmit`
     * (the stream) on the trimmed text, then the box is cleared.
     */
    method SubmitFromInput(input: InputBox, reply: string, userId: string, aiId: string, userTime: int, aiTime: int)
      modifies this, input
      ensures visibleChats == old(visibleChats)
      ensures SubmitBlocked(old(input.content), old(isStreaming)) ==>
        messages == old(messages) && isStreaming == old(isStreaming) && steps == old(steps)
        && input.content == old(input.content)
      ensures !SubmitBlocked(old(input.content), old(isStreaming)) ==>
        messages == old(messages) + [Message(userId, Trim(old(input.content)), User, userTime),
                                     Message(aiId, reply, Assistant, aiTime)]
        && !isStreaming && input.content == ""
        && |steps| == |Split(reply)| + 1 && steps[0] == StepView("", true)
        && (forall i :: 0 <= i < |Split(reply)| ==> steps[i + 1] == StepView(Revealed(Split(reply), i), true))
    {
      var sent := input.BeginSubmit(isStreaming);
      if sent.Some? {
        SimulateStreamingResponse(sent.value, reply, userId, aiId, userTime, aiTime);
        input.CompleteSubmit();
      }
    }
  }
}
