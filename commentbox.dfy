/** The comment box under a post (src/components/CommentBox.tsx): a text
    field whose trimmed contents are inserted as a comment by the signed-in
    user, cleared only when the insert succeeds. */
module CommentBox {
  import opened Common

  const SignInMessage: string := "Please sign in to comment."

  /** The row the box inserts. */
  datatype CommentInsert = CommentInsert(postId: nat, authorId: string, body: string)

  /** The button is disabled while submitting and while the text is blank,
      which is exactly when a click would do nothing or is already busy. */
  function SubmitDisabled(loading: bool, text: string): (r: bool)
    ensures r <==> loading || AllSpace(text)
  {
    loading || Trim(text) == ""
  }

  /** The button's text. */
  function ButtonText(loading: bool): (r: string)
    ensures loading <==> r == "Posting…"
  {
    if loading then "Posting…" else "Comment"
  }

  /** The component's state, one field per `useState`. Each event is a
      method whose `modifies` clause names exactly the fields it may change
      and whose `ensures` give their new values; every other field keeps its
      value. */
  class Box {
    const postId: nat
    var text: string
    var loading: bool
    var error: Option<string>

    constructor (postId: nat)
      ensures this.postId == postId
      ensures text == "" && !loading && error.None?
    {
      this.postId := postId;
      text, loading, error := "", false, None;
    }

    method TextChanged(t: string)
      modifies this`text
      ensures text == t
    {
      text := t;
    }

    /** submit with the signed-in user (None when the lookup failed or nobody
        is signed in) and the insert's error message. Blank text does
        nothing. Otherwise the trimmed text is inserted; success clears the
        text and fires the callback, an error keeps the text and shows its
        message; `loading` ends false on every path past the guard. */
    method Submit(user: Option<string>, insertError: Option<string>)
      returns (ran: bool, insert: Option<CommentInsert>, notified: bool)
      modifies this`text, this`loading, this`error
      ensures ran <==> !AllSpace(old(text))
      ensures !ran ==> loading == old(loading) && error == old(error) && insert.None? && !notified
      ensures ran ==> !loading
      ensures !notified ==> text == old(text)
      ensures ran && user.None? ==> error == Some(SignInMessage) && insert.None? && !notified
      ensures ran && user.Some? ==> insert == Some(CommentInsert(postId, user.value, Trim(old(text))))
      ensures ran && user.Some? && insertError.Some? ==> error == insertError && !notified
      ensures ran && user.Some? && insertError.None? ==> text == "" && error.None? && notified
      ensures insert.Some? ==> insert.value.body != "" && insert.value.body == Trim(insert.value.body)
    {
      insert, notified := None, false;
      var body := Trim(text);
      ran := body != "";
      if !ran {
        return;
      }
      loading := true;
      error := None;
      if user.None? {
        error := Some(SignInMessage);
        loading := false;
        return;
      }
      insert := Some(CommentInsert(postId, user.value, body));
      TrimIdempotent(old(text));
      if insertError.Some? {
        error := insertError;
      } else {
        text := "";
        notified := true;
      }
      loading := false;
    }
  }
}
