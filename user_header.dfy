/**
 * The user header: the avatar's initials and the fallbacks of the profile
 * menu. Upper-casing is modelled on ASCII letters only.
 */
module UserHeader {
  import opened Wrappers
  import opened Profiles

  function Min(a: int, b: int): int
  {
    if a <= b then a else b
  }

  /** `toUpperCase` on one character: 'a'..'z' become 'A'..'Z', everything else is kept. */
  function Upper(c: char): char
  {
    if 'a' <= c <= 'z' then (c as int - 32) as char else c
  }

  /** `toUpperCase` on a string, character by character. */
  function UpperString(s: string): (r: string)
    ensures |r| == |s|
    ensures forall i :: 0 <= i < |s| ==> r[i] == Upper(s[i])
  {
    if s == [] then [] else [Upper(s[0])] + UpperString(s[1..])
  }

  // ---------------------------------------------------------------------
  // Splitting a name into words
  // ---------------------------------------------------------------------

  /** `s.split(" ")`: the pieces between single spaces, empty pieces included. */
  function Split(s: string): (words: seq<string>)
    ensures |words| >= 1
  {
    if s == [] then [[]]
    else if s[0] == ' ' then [[]] + Split(s[1..])
    else
      var rest := Split(s[1..]);
      [[s[0]] + rest[0]] + rest[1..]
  }

  /** `words.join(" ")`. */
  function Join(words: seq<string>): string
  {
    if words == [] then []
    else if |words| == 1 then words[0]
    else words[0] + " " + Join(words[1..])
  }

  /** The number of spaces in `s`. */
  function Spaces(s: string): nat
  {
    if s == [] then 0 else (if s[0] == ' ' then 1 else 0) + Spaces(s[1..])
  }

  /** Joining the words with a space gives the name back: nothing is lost by the split. */
  lemma {:induction false} JoinSplit(s: string)
    ensures Join(Split(s)) == s
  {
    if s != [] {
      JoinSplit(s[1..]);
      var rest := Split(s[1..]);
      if s[0] == ' ' {
        assert Split(s) == [[]] + rest;
        assert Split(s)[1..] == rest;
      } else {
        var words := Split(s);
        assert words[1..] == rest[1..];
        if |rest| == 1 {
          assert Join(words) == [s[0]] + rest[0];
        } else {
          assert Join(rest) == rest[0] + " " + Join(rest[1..]);
          assert Join(words) == ([s[0]] + rest[0]) + " " + Join(rest[1..]);
        }
        assert s == [s[0]] + s[1..];
      }
    }
  }

  /** There is one word more than there are spaces, and no word holds a space. */
  lemma {:induction false} SplitShape(s: string)
    ensures |Split(s)| == Spaces(s) + 1
    ensures forall i, j :: 0 <= i < |Split(s)| && 0 <= j < |Split(s)[i]| ==> Split(s)[i][j] != ' '
  {
    if s != [] {
      SplitShape(s[1..]);
      var rest := Split(s[1..]);
      var words := Split(s);
      if s[0] != ' ' {
        forall i, j | 0 <= i < |words| && 0 <= j < |words[i]|
          ensures words[i][j] != ' '
        {
          if i == 0 {
            if j > 0 {
              assert words[0][j] == rest[0][j - 1];
            }
          } else {
            assert words[i] == rest[i];
          }
        }
      } else {
        forall i, j | 0 <= i < |words| && 0 <= j < |words[i]|
          ensures words[i][j] != ' '
        {
          assert words[i] == if i == 0 then [] else rest[i - 1];
        }
      }
    }
  }

  // ---------------------------------------------------------------------
  // Initials
  // ---------------------------------------------------------------------

  /** `words.map(n => n[0]).join("")`: an empty word has no `n[0]` (undefined), which join writes as nothing. */
  function FirstChars(words: seq<string>): string
  {
    if words == [] then []
    else (if words[0] == [] then [] else [words[0][0]]) + FirstChars(words[1..])
  }

  /** The number of words that are not empty. */
  function NonEmptyCount(words: seq<string>): nat
  {
    if words == [] then 0 else (if words[0] == [] then 0 else 1) + NonEmptyCount(words[1..])
  }

  /**
   * A one-pass reading of the same initials straight from the name: every
   * character that is not a space and stands at the start of the name
   * (`atStart`) or right after a space.
   */
  function WordStarts(s: string, atStart: bool): string
  {
    if s == [] then []
    else if s[0] == ' ' then WordStarts(s[1..], true)
    else (if atStart then [s[0]] else []) + WordStarts(s[1..], false)
  }

  /** The first characters of the words of `s` are its word starts: the first word on its own and the rest. */
  lemma {:induction false} FirstCharsOfSplit(s: string)
    ensures FirstChars(Split(s)) == WordStarts(s, true)
    ensures FirstChars(Split(s)[1..]) == WordStarts(s, false)
  {
    if s != [] {
      FirstCharsOfSplit(s[1..]);
      var rest := Split(s[1..]);
      if s[0] == ' ' {
        assert Split(s)[1..] == rest;
      } else {
        var words := Split(s);
        assert words[0] == [s[0]] + rest[0];
        assert words[1..] == rest[1..];
      }
    }
  }

  lemma {:induction false} FirstCharsCount(words: seq<string>)
    ensures |FirstChars(words)| == NonEmptyCount(words) <= |words|
  {
    if words != [] {
      FirstCharsCount(words[1..]);
    }
  }

  lemma {:induction false} WordStartsEmpty(s: string)
    ensures WordStarts(s, true) == [] <==> forall i :: 0 <= i < |s| ==> s[i] == ' '
  {
    if s != [] && s[0] == ' ' {
      WordStartsEmpty(s[1..]);
      assert forall i :: 1 <= i < |s| ==> s[i] == s[1..][i - 1];
    }
  }

  /** `profile?.name`. */
  function NameOf(profile: Option<Profile>): Option<string>
  {
    match profile
    case None => None
    case Some(p) => p.name
  }

  /** `profile?.role`. */
  function RoleOf(profile: Option<Profile>): Option<string>
  {
    match profile
    case None => None
    case Some(p) => p.role
  }

  /**
   * The avatar's initials. A non-empty name gives the upper-cased first
   * character of each of its words, in order; otherwise the first two
   * characters of the e-mail address, upper-cased, or "U" when there is no
   * address to take them from.
   */
  function UserInitials(profile: Option<Profile>, email: Option<string>): (r: string)
    ensures Truthy(NameOf(profile)) ==> r == UpperString(WordStarts(NameOf(profile).value, true))
    ensures !Truthy(NameOf(profile)) && Truthy(email) ==>
              |r| == Min(2, |email.value|) && forall i :: 0 <= i < |r| ==> r[i] == Upper(email.value[i])
    ensures !Truthy(NameOf(profile)) && !Truthy(email) ==> r == "U"
  {
    if Truthy(NameOf(profile)) then
      var name := NameOf(profile).value;
      FirstCharsOfSplit(name);
      UpperString(FirstChars(Split(name)))
    else
      // `user.email?.slice(0, 2).toUpperCase() || "U"`
      var fromEmail := match email
        case None => None
        case Some(e) => Some(UpperString(e[..Min(2, |e|)]));
      if Truthy(fromEmail) then fromEmail.value else "U"
  }

  /** From a name there are at most as many initials as words: one for each word that is not empty. */
  lemma InitialsAtMostOnePerWord(profile: Option<Profile>, email: Option<string>)
    requires Truthy(NameOf(profile))
    ensures |UserInitials(profile, email)| == NonEmptyCount(Split(NameOf(profile).value))
    ensures |UserInitials(profile, email)| <= |Split(NameOf(profile).value)|
  {
    var name := NameOf(profile).value;
    FirstCharsOfSplit(name);
    FirstCharsCount(Split(name));
  }

  /**
   * The initials are empty in one case only: a name that is present, not
   * empty, and made of spaces alone (the "U" fallback applies to the e-mail
   * branch, not to the name).
   */
  lemma InitialsEmptyIff(profile: Option<Profile>, email: Option<string>)
    ensures UserInitials(profile, email) == [] <==>
              Truthy(NameOf(profile)) && forall i :: 0 <= i < |NameOf(profile).value| ==> NameOf(profile).value[i] == ' '
  {
    if Truthy(NameOf(profile)) {
      WordStartsEmpty(NameOf(profile).value);
    }
  }

  // ---------------------------------------------------------------------
  // Menu fallbacks
  // ---------------------------------------------------------------------

  /** `profile?.name || "User"`: the name when there is one, never empty. */
  function DisplayName(profile: Option<Profile>): (r: string)
    ensures r != []
    ensures Truthy(NameOf(profile)) ==> r == NameOf(profile).value
    ensures !Truthy(NameOf(profile)) ==> r == "User"
  {
    if Truthy(NameOf(profile)) then NameOf(profile).value else "User"
  }

  /** `profile?.role || "user"`: the role when there is one, never empty. */
  function DisplayRole(profile: Option<Profile>): (r: string)
    ensures r != []
    ensures Truthy(RoleOf(profile)) ==> r == RoleOf(profile).value
    ensures !Truthy(RoleOf(profile)) ==> r == "user"
  {
    if Truthy(RoleOf(profile)) then RoleOf(profile).value else "user"
  }

  /** `profile?.role === "seller"`: the Calendar Settings entry is shown to sellers only. */
  function ShowsCalendarSettings(profile: Option<Profile>): (shown: bool)
    ensures shown <==> RoleOf(profile) == Some("seller")
  {
    profile.Some? && IsSellerRole(profile.value.role)
  }

  /** A profile that shows the Calendar Settings entry displays the role "seller". */
  lemma CalendarSettingsShowsSellerRole(profile: Option<Profile>)
    requires ShowsCalendarSettings(profile)
    ensures DisplayRole(profile) == "seller"
  {
  }
}
