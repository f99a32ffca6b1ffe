/**
 * The page shell every screen shares (static/js/main.js): the menu link
 * marked active for a path, the collapsible sidebar and its remembered
 * state, the chat boxes that re-render only on new data, and the guards
 * on sending a chat message.
 *
 * The DOM and `localStorage` entries these handlers touch are the fields of
 * the classes below; what the server answers is an input.
 */
module Shell {
  import opened Base
  import opened Text

  // ---------------------------------------------------------------------
  // Active menu link (`updateActiveMenu`)
  // ---------------------------------------------------------------------

  /**
   * The link chosen among the first `n`: a link whose `href` is a prefix
   * of the path replaces the current choice only when it is strictly
   * longer (the length starts at 0, so an empty `href` is never chosen).
   */
  function BestAfter(hrefs: seq<string>, path: string, n: nat): (r: Option<nat>)
    requires n <= |hrefs|
    ensures r.Some? ==> r.value < n
  {
    if n == 0 then None
    else
      var prev := BestAfter(hrefs, path, n - 1);
      var h := hrefs[n - 1];
      if StartsWith(path, h) && |h| > LengthOf(hrefs, prev) then Some(n - 1) else prev
  }

  /** `bestMatchLength` for a choice. */
  function LengthOf(hrefs: seq<string>, best: Option<nat>): nat
  {
    if best.Some? && best.value < |hrefs| then |hrefs[best.value]| else 0
  }

  function BestMatch(hrefs: seq<string>, path: string): Option<nat>
  {
    BestAfter(hrefs, path, |hrefs|)
  }

  /** A link the path starts with. */
  predicate Matches(hrefs: seq<string>, path: string, j: nat)
    requires j < |hrefs|
  {
    hrefs[j] != "" && StartsWith(path, hrefs[j])
  }

  /**
   * The chosen link is the longest non-empty `href` the path starts with,
   * and the first of them in document order; there is none exactly when no
   * non-empty `href` is a prefix of the path.
   */
  lemma {:induction false} BestAfterRule(hrefs: seq<string>, path: string, n: nat)
    requires n <= |hrefs|
    ensures var r := BestAfter(hrefs, path, n);
            && (r.Some? ==> Matches(hrefs, path, r.value))
            && (r.Some? ==> forall j | 0 <= j < n && Matches(hrefs, path, j) :: |hrefs[j]| <= |hrefs[r.value]|)
            && (r.Some? ==> forall j | 0 <= j < r.value && Matches(hrefs, path, j) :: |hrefs[j]| < |hrefs[r.value]|)
            && (r.None? ==> forall j | 0 <= j < n :: !Matches(hrefs, path, j))
  {
    if n > 0 {
      BestAfterRule(hrefs, path, n - 1);
    }
  }

  lemma BestMatchRule(hrefs: seq<string>, path: string)
    ensures var r := BestMatch(hrefs, path);
            && (r.Some? ==> r.value < |hrefs| && Matches(hrefs, path, r.value))
            && (r.Some? ==> forall j | 0 <= j < |hrefs| && Matches(hrefs, path, j) :: |hrefs[j]| <= |hrefs[r.value]|)
            && (r.Some? ==> forall j | 0 <= j < r.value && Matches(hrefs, path, j) :: |hrefs[j]| < |hrefs[r.value]|)
            && (r.None? <==> forall j | 0 <= j < |hrefs| :: !Matches(hrefs, path, j))
  {
    BestAfterRule(hrefs, path, |hrefs|);
  }

  class Menu {
    /** The `href` of each `a.menu-item`, in document order. */
    var hrefs: seq<string>
    /** Whether each link carries the `active` class. */
    var active: seq<bool>

    predicate Valid()
      reads this
    {
      |active| == |hrefs|
    }

    constructor (links: seq<string>)
      ensures hrefs == links && Valid() && forall i | 0 <= i < |active| :: !active[i]
    {
      hrefs := links;
      active := seq(|links|, _ => false);
    }

    /**
     * `updateActiveMenu`: the first pass picks the best link, the second
     * marks it and only it active.
     */
    method UpdateActiveMenu(path: string)
      requires Valid()
      modifies this`active
      ensures Valid()
      ensures forall i | 0 <= i < |active| :: active[i] <==> BestMatch(hrefs, path) == Some(i)
      ensures forall i, j | 0 <= i < j < |active| :: !(active[i] && active[j])
      ensures (forall i | 0 <= i < |active| :: !active[i]) <==> BestMatch(hrefs, path).None?
    {
      var best: Option<nat> := None;
      var bestLength := 0;
      var i := 0;
      while i < |hrefs|
        invariant 0 <= i <= |hrefs|
        invariant best == BestAfter(hrefs, path, i) && bestLength == LengthOf(hrefs, best)
      {
        var linkPath := hrefs[i];
        if StartsWith(path, linkPath) && |linkPath| > bestLength {
          best := Some(i);
          bestLength := |linkPath|;
        }
        i := i + 1;
      }
      var k := 0;
      while k < |active|
        invariant 0 <= k <= |active| && |active| == |hrefs|
        invariant forall m | 0 <= m < k :: active[m] <==> best == Some(m)
      {
        active := active[k := best == Some(k)];
        k := k + 1;
      }
      if best.Some? {
        assert active[best.value];
      }
    }
  }

  // ---------------------------------------------------------------------
  // Sidebar (`applySidebarState` and the pin toggle)
  // ---------------------------------------------------------------------

  const SidebarCollapsedKey: string := "sidebarCollapsed"
  /** The widest window on which the sidebar always shows expanded. */
  const NarrowWidth: int := 992

  /** The state `applySidebarState` derives from the stored flag and the window width. */
  predicate CollapsedFor(stored: Option<string>, width: int)
  {
    stored == Some("true") && width > NarrowWidth
  }

  /** What `localStorage.setItem` stores for a boolean: its text. */
  function Persisted(collapsed: bool): string
  {
    if collapsed then "true" else "false"
  }

  /** On a wide window the stored state reads back as the state stored; on a narrow one as expanded. */
  lemma PersistedRoundTrip(collapsed: bool, width: int)
    ensures width > NarrowWidth ==> (CollapsedFor(Some(Persisted(collapsed)), width) <==> collapsed)
    ensures width <= NarrowWidth ==> !CollapsedFor(Some(Persisted(collapsed)), width)
  {
  }

  class Sidebar {
    /** The body carries `sidebar-collapsed`. */
    var collapsed: bool
    /** `localStorage['sidebarCollapsed']`; `None` while unset. */
    var stored: Option<string>
    /** `window.innerWidth`. */
    var width: int

    constructor (stored0: Option<string>, width0: int)
      ensures stored == stored0 && width == width0
      ensures collapsed <==> CollapsedFor(stored0, width0)
    {
      stored := stored0;
      width := width0;
      collapsed := CollapsedFor(stored0, width0);
    }

    /** `applySidebarState`. */
    method ApplySidebarState()
      modifies this`collapsed
      ensures collapsed <==> CollapsedFor(stored, width)
    {
      if stored == Some("true") && width > NarrowWidth {
        collapsed := true;
      } else {
        collapsed := false;
      }
    }

    /** The `resize` listener. */
    method Resize(newWidth: int)
      modifies this`width, this`collapsed
      ensures width == newWidth && stored == old(stored)
      ensures collapsed <==> CollapsedFor(stored, newWidth)
    {
      width := newWidth;
      ApplySidebarState();
    }

    /** A click on the pin toggle: the state flips and the new state is stored. */
    method PinToggle()
      modifies this`collapsed, this`stored
      ensures collapsed == !old(collapsed)
      ensures stored == Some(Persisted(collapsed))
    {
      collapsed := !collapsed;
      stored := Some(Persisted(collapsed));
    }
  }

  /** A toggle on a wide window survives the next resize; on a narrow window the sidebar expands. */
  method ToggleThenResize(s: Sidebar, newWidth: int)
    modifies s
    ensures newWidth > NarrowWidth ==> s.collapsed == !old(s.collapsed)
    ensures newWidth <= NarrowWidth ==> !s.collapsed
  {
    s.PinToggle();
    PersistedRoundTrip(s.collapsed, newWidth);
    s.Resize(newWidth);
  }

  // ---------------------------------------------------------------------
  // Chat boxes (`loadMessages`, `loadMessaggiGruppo`)
  // ---------------------------------------------------------------------

  /** One chat message as the server sends it. */
  datatype Message = Message(date: string, time: string, user: string, chat: string)

  class ChatBox {
    /** `lastMessages` (or `lastGruppo`): the data last rendered. */
    var lastMessages: seq<Message>
    /** The messages the box's HTML shows once it has been rendered. */
    var shown: seq<Message>
    /** How many times the box has been re-rendered and scrolled to the bottom. */
    var renders: nat

    /** Once rendered, the box shows the data last rendered. */
    predicate Consistent()
      reads this
    {
      renders > 0 ==> shown == lastMessages
    }

    constructor ()
      ensures lastMessages == [] && renders == 0 && Consistent()
    {
      lastMessages := [];
      shown := [];
      renders := 0;
    }

    /**
     * The reply of the messages endpoint: the box is re-rendered and the
     * data remembered only when the box exists and the data differ from
     * the last rendered.
     */
    method LoadMessages(data: seq<Message>, boxPresent: bool)
      requires Consistent()
      modifies this
      ensures Consistent()
      ensures !boxPresent || data == old(lastMessages) ==>
                lastMessages == old(lastMessages) && shown == old(shown) && renders == old(renders)
      ensures boxPresent && data != old(lastMessages) ==>
                lastMessages == data && shown == data && renders == old(renders) + 1
    {
      if !boxPresent {
        return;
      }
      if data != lastMessages {
        shown := data;
        renders := renders + 1;
        lastMessages := data;
      }
    }
  }

  /** The same data twice: one render at most. */
  method LoadTwice(box: ChatBox, data: seq<Message>)
    requires box.Consistent()
    modifies box
    ensures box.renders <= old(box.renders) + 1
    ensures box.lastMessages == data && box.Consistent()
  {
    box.LoadMessages(data, true);
    box.LoadMessages(data, true);
  }

  // ---------------------------------------------------------------------
  // Sending a chat message
  // ---------------------------------------------------------------------

  /** The JSON body of a send; `gruppo` is absent (`None`) for the public chat or an undefined id. */
  datatype ChatPost = ChatPost(message: string, gruppo: Option<Json>)

  /** The public chat's submit: nothing is sent for a message that trims to nothing. */
  function PublicPost(input: string): (r: Option<ChatPost>)
    ensures r.None? <==> AllSpace(input)
    ensures r.Some? ==> r.value.message == Strip(input) && r.value.gruppo.None?
  {
    StripEmptyIff(input);
    var msg := Strip(input);
    if msg == "" then None else Some(ChatPost(msg, None))
  }

  /**
   * The group chat's submit: it also waits for the group id, which is
   * `null` (`Some(JNull)`) until `/api/mio-id` answers; an answer without
   * `id` leaves it undefined (`None`), which passes the guard.
   */
  function GroupPost(input: string, gruppoId: Option<Json>): (r: Option<ChatPost>)
    ensures r.None? <==> AllSpace(input) || gruppoId == Some(JNull)
    ensures r.Some? ==> r.value.message == Strip(input) && r.value.gruppo == gruppoId
  {
    StripEmptyIff(input);
    var msg := Strip(input);
    if msg == "" || gruppoId == Some(JNull) then None else Some(ChatPost(msg, gruppoId))
  }

  /** What is sent is never blank and has no surrounding whitespace. */
  lemma SentMessagesTrimmed(input: string, gruppoId: Option<Json>)
    ensures PublicPost(input).Some? ==>
              PublicPost(input).value.message != "" && Strip(PublicPost(input).value.message) == PublicPost(input).value.message
    ensures GroupPost(input, gruppoId).Some? ==>
              GroupPost(input, gruppoId).value.message != "" && Strip(GroupPost(input, gruppoId).value.message) == GroupPost(input, gruppoId).value.message
  {
    StripIdempotent(input);
  }

  class ChatForm {
    /** The input's text. */
    var input: string
    /** Each body posted to the send endpoint. */
    var sent: seq<ChatPost>

    constructor (text: string)
      ensures input == text && sent == []
    {
      input := text;
      sent := [];
    }

    /**
     * One submit of the group form (`group` true), or of the public form
     * with the single listener the page evidently intends (`group` false,
     * `gruppoId` unused): a guarded message is ignored; otherwise it is
     * posted once. `delivered` says whether the POST's fetch resolved (any
     * HTTP reply does; a network failure rejects it): only then does its
     * `.then` clear the input.
     */
    method Submit(group: bool, gruppoId: Option<Json>, delivered: bool)
      modifies this
      ensures var post := if group then GroupPost(old(input), gruppoId) else PublicPost(old(input));
              && (post.None? ==> input == old(input) && sent == old(sent))
              && (post.Some? ==> sent == old(sent) + [post.value])
              && (post.Some? ==> input == (if delivered then "" else old(input)))
    {
      var post := if group then GroupPost(input, gruppoId) else PublicPost(input);
      if post.None? {
        return;
      }
      sent := sent + [post.value];
      if delivered {
        input := "";
      }
    }

    /**
     * One submit of the public form as written: `#chat-form` has two
     * `submit` listeners, the one `initChat` adds and the top-level one.
     * Each reads the trimmed input before either reply clears it, so a
     * message that passes the guard is posted twice. `firstDelivered` and
     * `secondDelivered` say whether each fetch resolved; the input is
     * cleared when either does.
     */
    method SubmitPublicAsWritten(firstDelivered: bool, secondDelivered: bool)
      modifies this
      ensures var post := PublicPost(old(input));
              && (post.None? ==> input == old(input) && sent == old(sent))
              && (post.Some? ==> sent == old(sent) + [post.value, post.value])
              && (post.Some? ==> input == (if firstDelivered || secondDelivered then "" else old(input)))
    {
      var fromInitChat := PublicPost(input);
      var fromPage := PublicPost(input);
      if fromInitChat.Some? {
        sent := sent + [fromInitChat.value];
      }
      if fromPage.Some? {
        sent := sent + [fromPage.value];
      }
      if fromInitChat.Some? && firstDelivered {
        input := "";
      }
      if fromPage.Some? && secondDelivered {
        input := "";
      }
    }
  }

  /** As written, one public submit of `ciao` posts `ciao` twice; the intended submit posts it once. */
  method PublicSubmitPostsTwice() returns (asWritten: ChatForm, intended: ChatForm)
    ensures asWritten.sent == [ChatPost("ciao", None), ChatPost("ciao", None)]
    ensures intended.sent == [ChatPost("ciao", None)]
  {
    var msg := "ciao";
    StripUnchanged(msg);
    asWritten := new ChatForm(msg);
    asWritten.SubmitPublicAsWritten(true, true);
    intended := new ChatForm(msg);
    intended.Submit(false, None, true);
  }
}
