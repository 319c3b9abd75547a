/** The avatar (src/components/ProfileAvatar.tsx): a display name with
    fallbacks, initials drawn from it, and the choice between the profile's
    image and an initials badge. */
module ProfileAvatar {
  import opened Common
  import opened Entities

  const DefaultName: string := "User"

  /** `profile?.full_name || profile?.username || 'User'`. */
  function DisplayName(profile: Option<Profile>): (r: string)
    ensures r != ""
    ensures profile.Some? && Truthy(profile.value.fullName) ==> r == profile.value.fullName.value
    ensures profile.Some? && !Truthy(profile.value.fullName) && Truthy(profile.value.username) ==>
      r == profile.value.username.value
    ensures (profile.None? || (!Truthy(profile.value.fullName) && !Truthy(profile.value.username))) ==>
      r == DefaultName
  {
    if profile.None? then DefaultName
    else FirstTruthy(profile.value.fullName, profile.value.username, DefaultName)
  }

  /** `words.map(p => p[0]).join('')`: an empty word gives `undefined`, which
      join writes as nothing. */
  function FirstChars(words: seq<string>): (r: string)
    ensures |r| <= |words|
  {
    if words == [] then ""
    else (if words[0] == "" then "" else [words[0][0]]) + FirstChars(words[1..])
  }

  /** `.slice(0, 2)`. */
  function TakeTwo(s: string): (r: string)
    ensures |r| <= 2 && (|s| >= 2 ==> |r| == 2) && (|s| < 2 ==> r == s)
    ensures r == s[..|r|]
  {
    if |s| <= 2 then s else s[..2]
  }

  /** The initials: the first character of each space-separated word, the
      first two of those, upper-cased. */
  function Initials(name: string): (r: string)
    ensures |r| <= 2
    ensures var firsts := FirstChars(Split(name, ' '));
      |r| == |TakeTwo(firsts)| && forall k :: 0 <= k < |r| ==> r[k] == UpperChar(firsts[k])
  {
    ToUpper(TakeTwo(FirstChars(Split(name, ' '))))
  }

  /** Two words give their two first letters. */
  lemma {:induction false} InitialsOfTwoWords(a: string, b: string)
    requires a != "" && b != "" && ' ' !in a && ' ' !in b
    ensures Initials(a + " " + b) == [UpperChar(a[0]), UpperChar(b[0])]
  {
    SplitCons(a, ' ', b);
    assert a + " " + b == a + [' '] + b;
    assert Split(b, ' ') == [b];
    assert FirstChars([b]) == [b[0]];
    assert FirstChars([a] + [b]) == [a[0]] + FirstChars([b]);
  }

  /** One word gives its first letter. */
  lemma {:induction false} InitialsOfOneWord(a: string)
    requires a != "" && ' ' !in a
    ensures Initials(a) == [UpperChar(a[0])]
  {
    assert Split(a, ' ') == [a];
    assert FirstChars([a]) == [a[0]];
  }

  /** A leading space adds an empty word, which contributes nothing. */
  lemma {:induction false} InitialsSkipLeadingSpace(s: string)
    ensures Initials(" " + s) == Initials(s)
  {
    SplitCons("", ' ', s);
    assert " " + s == "" + [' '] + s;
    var words := Split(s, ' ');
    assert FirstChars([""] + words) == FirstChars(words) by {
      assert ([""] + words)[1..] == words;
    }
  }

  /** What the avatar shows. */
  datatype AvatarView = Image(src: string, alt: string) | Badge(text: string, title: string)

  /** An image exactly when the profile has a non-empty avatar URL; the
      initials badge otherwise. Both carry the display name. */
  function Render(profile: Option<Profile>): (v: AvatarView)
    ensures v.Image? <==> profile.Some? && Truthy(profile.value.avatarUrl)
    ensures v.Image? ==> v.src == profile.value.avatarUrl.value && v.alt == DisplayName(profile)
    ensures v.Badge? ==> v.text == Initials(DisplayName(profile)) && v.title == DisplayName(profile)
  {
    var name := DisplayName(profile);
    if profile.Some? && Truthy(profile.value.avatarUrl) then Image(profile.value.avatarUrl.value, name)
    else Badge(Initials(name), name)
  }

  /** Without a profile the badge reads "U". */
  lemma RenderAnonymous()
    ensures Render(None) == Badge("U", DefaultName)
  {
    InitialsOfOneWord(DefaultName);
  }
}
