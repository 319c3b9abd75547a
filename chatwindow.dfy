/** One direct-message conversation (src/components/chat/ChatWindow.tsx): the
    first page of messages, older pages behind a keyset cursor, live inserts,
    the image picker and the composer. The message store of a conversation is
    given as its messages in ascending (created-at, id) order; the two page
    queries are functions of it. */
module ChatWindow {
  import opened Common
  import opened Entities

  const Page: nat := 40

  function Min(a: nat, b: nat): nat { if a <= b then a else b }

  /** `otherId`: unknown until both the signed-in user and the conversation are
      known; then the participant who is not the signed-in user. */
  function OtherId(me: Option<string>, convo: Option<Convo>): (r: Option<string>)
    ensures r.Some? <==> Truthy(me) && convo.Some?
    ensures r.Some? ==> r.value == OtherParticipant(me.value, convo.value.userA, convo.value.userB)
  {
    if !Truthy(me) || convo.None? then None
    else Some(OtherParticipant(me.value, convo.value.userA, convo.value.userB))
  }

  // ---------------------------------------------------------------------------
  // The page queries
  // ---------------------------------------------------------------------------

  /** The store's order: strictly ascending by (created-at, id). */
  predicate Ascending(h: seq<Message>) {
    forall i, j :: 0 <= i < j < |h| ==> CursorLess(MessageCursor(h[i]), MessageCursor(h[j]))
  }

  /** The messages strictly before a cursor, in store order. */
  function Before(h: seq<Message>, c: Cursor): (r: seq<Message>)
    ensures |r| <= |h|
    ensures forall m :: m in r <==> m in h && CursorLess(MessageCursor(m), c)
  {
    if h == [] then []
    else (if CursorLess(MessageCursor(h[0]), c) then [h[0]] else []) + Before(h[1..], c)
  }

  /** Helper: when the rows before position k are exactly those before the
      cursor, the filter keeps the prefix of length k. */
  lemma {:induction false} BeforeIsPrefix(h: seq<Message>, c: Cursor, k: nat)
    requires k <= |h|
    requires forall i :: 0 <= i < k ==> CursorLess(MessageCursor(h[i]), c)
    requires forall i :: k <= i < |h| ==> !CursorLess(MessageCursor(h[i]), c)
    ensures Before(h, c) == h[..k]
    decreases |h|
  {
    if h != [] {
      var k' := if k == 0 then 0 else k - 1;
      forall i | 0 <= i < k' ensures CursorLess(MessageCursor(h[1..][i]), c) {
        assert h[1..][i] == h[i + 1];
      }
      forall i | k' <= i < |h| - 1 ensures !CursorLess(MessageCursor(h[1..][i]), c) {
        assert h[1..][i] == h[i + 1];
      }
      BeforeIsPrefix(h[1..], c, k');
      if k > 0 {
        assert h[..k] == [h[0]] + h[1..][..k'];
      }
    }
  }

  /** In an ascending store, the messages before the k-th message's cursor
      are the first k messages. */
  lemma BeforePosition(h: seq<Message>, k: nat)
    requires Ascending(h) && k < |h|
    ensures Before(h, MessageCursor(h[k])) == h[..k]
  {
    BeforeIsPrefix(h, MessageCursor(h[k]), k);
  }

  /** The first-page query as written: ascending order with a limit of PAGE,
      that is the oldest messages of the conversation. */
  function FirstPageAsWritten(h: seq<Message>): (r: seq<Message>)
    ensures |r| == Min(|h|, Page) && r == h[..|r|]
  {
    if |h| <= Page then h else h[..Page]
  }

  /** The older-page query as written: the oldest PAGE messages before the
      cursor. */
  function OlderPageAsWritten(h: seq<Message>, c: Cursor): (r: seq<Message>)
    ensures var b := Before(h, c); |r| == Min(|b|, Page) && r == b[..|r|]
  {
    var b := Before(h, c);
    if |b| <= Page then b else b[..Page]
  }

  /** With more than PAGE messages, the queries as written never show the
      newest message: the first page holds the oldest ones and the older-page
      query from its first message finds nothing. */
  lemma {:induction false} AsWrittenHidesNewest(h: seq<Message>)
    requires Ascending(h) && |h| > Page
    ensures FirstPageAsWritten(h) == h[..Page]
    ensures OlderPageAsWritten(h, MessageCursor(FirstPageAsWritten(h)[0])) == []
    ensures h[|h| - 1] !in FirstPageAsWritten(h)
  {
    var first := FirstPageAsWritten(h);
    assert first[0] == h[0];
    BeforePosition(h, 0);
  }

  /** The first-page query as intended: the newest PAGE messages, oldest
      first. */
  function FirstPage(h: seq<Message>): (r: seq<Message>)
    ensures |r| == Min(|h|, Page) && r == h[|h| - |r|..]
    ensures h != [] ==> r != [] && r[|r| - 1] == h[|h| - 1]
  {
    if |h| <= Page then h else h[|h| - Page..]
  }

  /** The older-page query as intended: the PAGE messages right before the
      cursor, oldest first. */
  function OlderPage(h: seq<Message>, c: Cursor): (r: seq<Message>)
    ensures var b := Before(h, c); |r| == Min(|b|, Page) && r == b[|b| - |r|..]
  {
    var b := Before(h, c);
    if |b| <= Page then b else b[|b| - Page..]
  }

  /** Loading older messages in front of a window that starts at position k
      gives the window that starts PAGE positions earlier (or at the start):
      the loaded messages are always a contiguous, ordered tail of the
      conversation, and every message is reached. */
  lemma {:induction false} OlderPageExtendsWindow(h: seq<Message>, k: nat)
    requires Ascending(h) && k < |h|
    ensures var b := OlderPage(h, MessageCursor(h[k]));
      |b| == Min(k, Page) && b + h[k..] == h[k - |b|..]
  {
    BeforePosition(h, k);
    var b := OlderPage(h, MessageCursor(h[k]));
    assert b == h[..k][k - |b|..];
    assert b + h[k..] == h[k - |b|..];
  }

  // ---------------------------------------------------------------------------
  // Live inserts and the upload path
  // ---------------------------------------------------------------------------

  /** `prev.some(x => x.id === m.id) ? prev : [...prev, m]`. */
  function AppendNew(msgs: seq<Message>, m: Message): (r: seq<Message>)
    ensures HasKey(r, MessageId, m.id)
    ensures HasKey(msgs, MessageId, m.id) ==> r == msgs
    ensures !HasKey(msgs, MessageId, m.id) ==> r == msgs + [m]
  {
    if HasKey(msgs, MessageId, m.id) then msgs
    else
      assert (msgs + [m])[|msgs|] == m;
      msgs + [m]
  }

  /** A live message never puts an id in the list twice. */
  lemma AppendNewKeepsUnique(msgs: seq<Message>, m: Message)
    requires UniqueKeys(msgs, MessageId)
    ensures UniqueKeys(AppendNew(msgs, m), MessageId)
  {
    if !HasKey(msgs, MessageId, m.id) {
      var r := msgs + [m];
      forall i, j | 0 <= i < j < |r| ensures r[i].id != r[j].id {
        assert r[i] == msgs[i];
        if j < |msgs| {
          assert r[j] == msgs[j];
        } else {
          assert MessageId(msgs[i]) != m.id;
        }
      }
    }
  }

  /** The storage path of an attachment: `{me}/dm/{conversation}/{now}.{ext}`. */
  function UploadPath(me: string, conversationId: nat, now: nat, fileName: string): (r: string)
    ensures StartsWith(r, me + "/dm/")
    ensures LastPiece(r, '.') == Extension(fileName)
  {
    var stem := me + "/dm/" + NatToString(conversationId) + "/" + NatToString(now);
    LastPieceAfterSeparator(stem, '.', Extension(fileName));
    assert (stem + "." + Extension(fileName))[..|me + "/dm/"|] == me + "/dm/";
    stem + "." + Extension(fileName)
  }

  /** The row the composer inserts. */
  datatype MessageInsert = MessageInsert(conversationId: nat, senderId: string, body: Option<string>, imageUrl: Option<string>)

  /** The chat, one field per `useState` of the component. Each event is a
      method whose `modifies` clause names exactly the fields it may change
      and whose `ensures` give their new values; every other field keeps its
      value. */
  class Chat {
    const conversationId: nat
    var me: Option<string>
    var convo: Option<Convo>
    var other: Option<Profile>
    var msgs: seq<Message>
    var olderCursor: Option<Cursor>
    var hasOlder: bool
    var text: string
    var file: Option<FileInfo>
    /** Whether an object URL previews the chosen file. */
    var preview: bool
    var sending: bool
    var loading: bool

    constructor (conversationId: nat)
      ensures this.conversationId == conversationId
      ensures me.None? && convo.None? && other.None? && msgs == [] && olderCursor.None? && hasOlder
      ensures text == "" && file.None? && !preview && !sending && loading
    {
      this.conversationId := conversationId;
      me, convo, other, msgs := None, None, None, [];
      olderCursor, hasOlder, text, file := None, true, "", None;
      preview, sending, loading := false, false, true;
    }

    method UserLoaded(uid: Option<string>)
      modifies this`me
      ensures me == uid
    {
      me := uid;
    }

    /** The load effect with the conversation row, the other participant's
        profile and the store (None when a query failed). Returns whether it
        ran and the message id the read pointer is moved to. The page shown is
        FirstPage, the intended newest 40; the code's query gives
        FirstPageAsWritten instead (AsWrittenHidesNewest). */
    method Load(c: Option<Convo>, p: Option<Profile>, stored: Option<seq<Message>>)
      returns (ran: bool, readPointer: Option<nat>)
      modifies this`loading, this`convo, this`other, this`msgs, this`hasOlder, this`olderCursor
      ensures ran == (conversationId != 0 && Truthy(me))
      ensures !ran ==> loading == old(loading)
      ensures ran ==> !loading
      ensures !(ran && c.Some?) ==>
        convo == old(convo) && other == old(other) && msgs == old(msgs) && hasOlder == old(hasOlder)
        && olderCursor == old(olderCursor) && readPointer.None?
      ensures ran && c.Some? ==>
        var list := FirstPage(stored.GetOr([]));
        convo == c && other == p && msgs == list && hasOlder == (|list| == Page)
        && olderCursor == (if list == [] then old(olderCursor) else Some(MessageCursor(list[0])))
        && readPointer == (if list == [] then None else Some(list[|list| - 1].id))
    {
      readPointer := None;
      ran := conversationId != 0 && Truthy(me);
      if !ran {
        return;
      }
      loading := true;
      if c.Some? {
        convo, other := c, p;
        readPointer := ShowFirstPage(FirstPage(stored.GetOr([])));
      }
      loading := false;
    }

    /** The success branch of the load effect: the page becomes the list. */
    method ShowFirstPage(list: seq<Message>) returns (readPointer: Option<nat>)
      modifies this`msgs, this`hasOlder, this`olderCursor
      ensures msgs == list && hasOlder == (|list| == Page)
      ensures olderCursor == (if list == [] then old(olderCursor) else Some(MessageCursor(list[0])))
      ensures readPointer == (if list == [] then None else Some(list[|list| - 1].id))
    {
      msgs, hasOlder := list, |list| == Page;
      readPointer := None;
      if list != [] {
        olderCursor := Some(MessageCursor(list[0]));
        readPointer := Some(list[|list| - 1].id);
      }
    }

    /** A live message of this conversation: appended unless its id is
        listed. Returns whether the read pointer moves to it (it is the
        signed-in user's own message). */
    method LiveMessage(m: Message) returns (markRead: bool)
      modifies this`msgs
      ensures msgs == AppendNew(old(msgs), m)
      ensures markRead == (me == Some(m.senderId))
    {
      msgs := AppendNew(msgs, m);
      markRead := me == Some(m.senderId);
    }

    /** loadOlder with the store (None when the query failed). Nothing happens
        without a cursor; an empty batch ends the history; otherwise the
        batch goes in front, the cursor moves to its first message and
        hasOlder says whether the batch was full. The batch is OlderPage, the
        intended 40 right before the cursor; the code's query gives
        OlderPageAsWritten instead. */
    method LoadOlder(stored: Option<seq<Message>>) returns (ran: bool)
      modifies this`msgs, this`olderCursor, this`hasOlder
      ensures ran == old(olderCursor).Some?
      ensures !ran ==> msgs == old(msgs) && olderCursor == old(olderCursor) && hasOlder == old(hasOlder)
      ensures ran && OlderPage(stored.GetOr([]), old(olderCursor).value) == [] ==>
        msgs == old(msgs) && olderCursor == old(olderCursor) && !hasOlder
      ensures ran && OlderPage(stored.GetOr([]), old(olderCursor).value) != [] ==>
        var batch := OlderPage(stored.GetOr([]), old(olderCursor).value);
        msgs == batch + old(msgs) && olderCursor == Some(MessageCursor(batch[0])) && hasOlder == (|batch| == Page)
    {
      ran := olderCursor.Some?;
      if !ran {
        return;
      }
      var batch := OlderPage(stored.GetOr([]), olderCursor.value);
      if |batch| == 0 {
        hasOlder := false;
        return;
      }
      msgs := batch + msgs;
      olderCursor := Some(MessageCursor(batch[0]));
      hasOlder := |batch| == Page;
    }

    /** onPickFile with the chosen file (None when the dialog was cancelled).
        A file is taken only if it is an image of at most 5 MB; a file that is
        not an image is ignored silently, one that is too large raises the
        returned alert. */
    method PickFile(f: Option<FileInfo>) returns (alertText: Option<string>)
      modifies this`file, this`preview
      ensures f.Some? && IsImageType(f.value) && WithinSizeLimit(f.value) ==>
        file == f && preview && alertText.None?
      ensures !(f.Some? && IsImageType(f.value) && WithinSizeLimit(f.value)) ==>
        file == old(file) && preview == old(preview)
      ensures alertText.Some? <==> f.Some? && IsImageType(f.value) && !WithinSizeLimit(f.value)
      ensures alertText.Some? ==> alertText.value == "Image must be under 5MB"
    {
      alertText := None;
      if f.None? || !IsImageType(f.value) {
        return;
      }
      if !WithinSizeLimit(f.value) {
        alertText := Some("Image must be under 5MB");
        return;
      }
      file := f;
      preview := true;
    }

    method TextChanged(t: string)
      modifies this`text
      ensures text == t
    {
      text := t;
    }

    /** The preview's remove button. */
    method PreviewRemoved()
      modifies this`preview, this`file
      ensures !preview && file.None?
    {
      preview := false;
      file := None;
    }

    /** send, with the clock, the upload's error message (if any), the public
        URL of the uploaded file and the insert's error message (if any).
        Needs a signed-in user and non-blank text or a file. An upload error
        aborts with the text and the file kept; otherwise the message is inserted with the
        trimmed text (null when blank) and the composer is cleared whether or
        not the insert failed. */
    method Send(now: nat, uploadError: Option<string>, publicUrl: string, insertError: Option<string>)
      returns (ran: bool, path: Option<string>, insert: Option<MessageInsert>, alertText: Option<string>)
      modifies this`sending, this`text, this`preview, this`file
      ensures ran == (Truthy(me) && (!AllSpace(old(text)) || old(file).Some?))
      ensures !ran ==> sending == old(sending) && path.None? && insert.None? && alertText.None?
      ensures ran ==> !sending
      ensures ran ==> path == if old(file).Some? then Some(UploadPath(me.value, conversationId, now, old(file).value.name)) else None
      ensures !ran || (old(file).Some? && uploadError.Some?) ==>
        text == old(text) && preview == old(preview) && file == old(file)
      ensures ran && old(file).Some? && uploadError.Some? ==> insert.None? && alertText == uploadError
      ensures ran && !(old(file).Some? && uploadError.Some?) ==>
        insert == Some(MessageInsert(conversationId, me.value, TrimOrNull(old(text)),
                                     if old(file).Some? then Some(publicUrl) else None))
        && alertText == insertError
        && text == "" && !preview && file.None?
    {
      path, insert, alertText := None, None, None;
      ran := Truthy(me) && (Trim(text) != "" || file.Some?);
      if !ran {
        return;
      }
      sending := true;
      var imageUrl: Option<string> := None;
      if file.Some? {
        path := Some(UploadPath(me.value, conversationId, now, file.value.name));
        if uploadError.Some? {
          alertText := uploadError;
          sending := false;
          return;
        }
        imageUrl := Some(publicUrl);
      }
      insert := Some(MessageInsert(conversationId, me.value, TrimOrNull(text), imageUrl));
      alertText := insertError;
      text := "";
      preview := false;
      file := None;
      sending := false;
    }
  }
}
