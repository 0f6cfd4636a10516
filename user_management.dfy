/** The admin's user list (`frontend/src/pages/admin/UserManagement.jsx`): the avatar initials,
    who may change whose role, the role each button sends, and the list's paging state. */
module UserManagement {
  import opened Common
  import opened Strings

  // ---------------------------------------------------------------------------------------
  // `split(/\s+/)`

  /** The index of the first white space character, or the length when there is none. */
  function FirstWhite(s: string): (i: nat)
    ensures i <= |s| && NoWhite(s[..i])
    ensures i < |s| ==> IsWhite(s[i])
  {
    if s == [] || IsWhite(s[0]) then 0
    else
      var i := 1 + FirstWhite(s[1..]);
      assert s[..i] == [s[0]] + s[1..][..i - 1];
      i
  }

  /** `s.split(/\s+/)`: the pieces between the runs of white space, with an empty first
      (last) piece when `s` starts (ends) with white space, and `[""]` for `""`. */
  function SplitWs(s: string): (parts: seq<string>)
    ensures |parts| >= 1
    ensures forall k :: 0 <= k < |parts| ==> NoWhite(parts[k])
    decreases |s|
  {
    var i := FirstWhite(s);
    if i == |s| then [s]
    else
      var rest := TrimStart(s[i..]);
      TrimStartShorter(s[i..]);
      [s[..i]] + SplitWs(rest)
  }

  /** A run of white space is dropped whole: what follows a white first character trims
      to something shorter. */
  lemma TrimStartShorter(x: string)
    requires x != [] && IsWhite(x[0])
    ensures |TrimStart(x)| < |x|
  {
    assert TrimStart(x) == TrimStart(x[1..]);
  }

  /** `s` with every white space character removed. */
  function Squeezed(s: string): (r: string)
    ensures NoWhite(r) && |r| <= |s|
  {
    if s == [] then [] else (if IsWhite(s[0]) then [] else [s[0]]) + Squeezed(s[1..])
  }

  lemma {:induction false} SqueezedAppend(a: string, b: string)
    ensures Squeezed(a + b) == Squeezed(a) + Squeezed(b)
  {
    if a == [] {
      assert a + b == b;
    } else {
      assert (a + b)[1..] == a[1..] + b;
      SqueezedAppend(a[1..], b);
    }
  }

  lemma {:induction false} SqueezedNoWhite(s: string)
    requires NoWhite(s)
    ensures Squeezed(s) == s
  {
    if s != [] {
      SqueezedNoWhite(s[1..]);
    }
  }

  lemma {:induction false} SqueezedAllWhite(s: string)
    requires AllWhite(s)
    ensures Squeezed(s) == []
  {
    if s != [] {
      SqueezedAllWhite(s[1..]);
    }
  }

  lemma SqueezedTrimStart(s: string)
    ensures Squeezed(TrimStart(s)) == Squeezed(s)
  {
    var r := TrimStart(s);
    var lead := s[..|s| - |r|];
    assert s == lead + r;
    SqueezedAppend(lead, r);
    SqueezedAllWhite(lead);
  }

  /** The pieces hold exactly the characters of `s` that are not white space, in order. */
  lemma {:induction false} SplitKeepsText(s: string)
    ensures Concat(SplitWs(s)) == Squeezed(s)
    decreases |s|
  {
    var i := FirstWhite(s);
    if i == |s| {
      assert s[..i] == s;
      SqueezedNoWhite(s);
      assert Concat([s]) == s + Concat([]);
    } else {
      var word, tail := s[..i], s[i..];
      assert s == word + tail;
      var rest := TrimStart(tail);
      TrimStartShorter(tail);
      SplitKeepsText(rest);
      ConcatCons(word, SplitWs(rest));
      SqueezedAppend(word, tail);
      SqueezedNoWhite(word);
      SqueezedTrimStart(tail);
    }
  }

  lemma ConcatCons(p: string, ps: seq<string>)
    ensures Concat([p] + ps) == p + Concat(ps)
  {
    assert ([p] + ps)[1..] == ps;
  }

  lemma {:induction false} FirstWhiteAfter(a: string, x: string)
    requires NoWhite(a) && (x == [] || IsWhite(x[0]))
    ensures FirstWhite(a + x) == |a|
  {
    if a != [] {
      assert (a + x)[1..] == a[1..] + x;
      FirstWhiteAfter(a[1..], x);
    }
  }

  lemma {:induction false} TrimStartPastWhite(pre: string, x: string)
    requires AllWhite(pre) && (x == [] || !IsWhite(x[0]))
    ensures TrimStart(pre + x) == x
  {
    if pre != [] {
      assert (pre + x)[1..] == pre[1..] + x;
      TrimStartPastWhite(pre[1..], x);
    }
  }

  lemma {:induction false} TrimEndPastWhite(x: string, post: string)
    requires AllWhite(post) && (x == [] || !IsWhite(x[|x| - 1]))
    ensures TrimEnd(x + post) == x
  {
    if post != [] {
      assert (x + post)[..|x + post| - 1] == x + post[..|post| - 1];
      TrimEndPastWhite(x, post[..|post| - 1]);
    }
  }

  /** A trimmed non-empty string splits into non-empty words, the first starting where the
      string starts. */
  lemma {:induction false} SplitTrimmed(s: string)
    requires Trimmed(s) && s != ""
    ensures forall k :: 0 <= k < |SplitWs(s)| ==> SplitWs(s)[k] != ""
    ensures SplitWs(s)[0][0] == s[0]
    decreases |s|
  {
    var i := FirstWhite(s);
    if i < |s| {
      var word, tail := s[..i], s[i..];
      var rest := TrimStart(tail);
      TrimStartShorter(tail);
      TrimStartKeepsLast(tail);
      assert rest[|rest| - 1] == s[|s| - 1];
      SplitTrimmed(rest);
      SplitStep(s, word, rest);
      assert word[0] == s[0];
    }
  }

  /** `trimStart` keeps a last character that is not white space. */
  lemma TrimStartKeepsLast(x: string)
    requires x != [] && !IsWhite(x[|x| - 1])
    ensures TrimStart(x) != [] && TrimStart(x)[|TrimStart(x)| - 1] == x[|x| - 1]
  {
  }

  /** The split of a string that holds white space: its first word, then the split of what
      follows the white space after that word. */
  lemma SplitStep(s: string, word: string, rest: string)
    requires FirstWhite(s) < |s| && word == s[..FirstWhite(s)] && rest == TrimStart(s[FirstWhite(s)..])
    ensures SplitWs(s) == [word] + SplitWs(rest)
  {
  }

  // ---------------------------------------------------------------------------------------
  // `getInitials`

  /** The avatar text: "?" without a name; for one word its first two characters; otherwise
      the first letters of the first and the last word; upper-cased. */
  function GetInitials(name: Option<string>): (r: string)
    ensures !Present(name) ==> r == "?"
    ensures Present(name) ==> |r| <= 2
    ensures Present(name) && |SplitWs(Trim(name.value))| >= 2 ==>
      |r| == 2 && Trim(name.value) != "" && r[0] == UpperChar(Trim(name.value)[0])
  {
    if !Present(name) then "?"
    else
      var t := Trim(name.value);
      var parts := SplitWs(t);
      if |parts| == 1 then Upper(parts[0][..Min(2, |parts[0]|)])
      else
        SeveralWords(name.value, t, parts);
        Upper([parts[0][0], parts[|parts| - 1][0]])
  }

  /** For a name of several words, however many, the second initial is the upper-cased first
      letter of the last word. */
  lemma SeveralWordInitials(name: string)
    requires |SplitWs(Trim(name))| >= 2
    ensures var ws := SplitWs(Trim(name)); var r := GetInitials(Some(name));
      |r| == 2 && ws[|ws| - 1] != "" && r[1] == UpperChar(ws[|ws| - 1][0])
  {
    var t := Trim(name);
    SeveralWords(name, t, SplitWs(t));
  }

  /** A trimmed name of several words has non-empty first and last words, the first starting
      where the trimmed name starts. */
  lemma SeveralWords(name: string, t: string, parts: seq<string>)
    requires t == Trim(name) && parts == SplitWs(t) && |parts| >= 2
    ensures t != "" && parts[0] != "" && parts[|parts| - 1] != "" && parts[0][0] == t[0]
  {
    assert t != "";
    TrimTrimmed(name);
    SplitTrimmed(t);
  }

  /** A name of white space only has an empty avatar. */
  lemma BlankNameInitials(name: string)
    requires name != "" && AllWhite(name)
    ensures GetInitials(Some(name)) == ""
  {
    TrimEmptyIff(name);
  }

  lemma TrimAround(pre: string, w: string, post: string)
    requires AllWhite(pre) && AllWhite(post) && w != "" && !IsWhite(w[0]) && !IsWhite(w[|w| - 1])
    ensures Trim(pre + w + post) == w
  {
    var x := w + post;
    var s := pre + x;
    assert pre + w + post == s;
    TrimStartPastWhite(pre, x);
    TrimEndPastWhite(w, post);
    assert Trim(s) == TrimEnd(x);
  }

  lemma SplitOneWord(w: string)
    requires NoWhite(w)
    ensures SplitWs(w) == [w]
  {
    FirstWhiteAfter(w, []);
    assert w + [] == w;
  }

  /** A word followed by white space is split off whole. */
  lemma SplitAfterWord(a: string, x: string)
    requires NoWhite(a) && x != [] && IsWhite(x[0])
    ensures SplitWs(a + x) == [a] + SplitWs(TrimStart(x))
  {
    FirstWhiteAfter(a, x);
    assert (a + x)[..|a|] == a;
    assert (a + x)[|a|..] == x;
  }

  lemma SplitTwoWords(a: string, gap: string, b: string)
    requires a != "" && NoWhite(a) && b != "" && NoWhite(b) && gap != "" && AllWhite(gap)
    ensures SplitWs(a + (gap + b)) == [a, b]
  {
    SplitAfterWord(a, gap + b);
    TrimStartPastWhite(gap, b);
    SplitOneWord(b);
  }

  /** One word, whatever white space surrounds it: its first two characters. */
  lemma OneWordInitials(pre: string, w: string, post: string)
    requires AllWhite(pre) && AllWhite(post) && w != "" && NoWhite(w)
    ensures GetInitials(Some(pre + w + post)) == Upper(w[..Min(2, |w|)])
  {
    TrimAround(pre, w, post);
    SplitOneWord(w);
  }

  /** Two words: the first letter of each. */
  lemma TwoWordInitials(a: string, gap: string, b: string)
    requires a != "" && NoWhite(a) && b != "" && NoWhite(b) && gap != "" && AllWhite(gap)
    ensures GetInitials(Some(a + gap + b)) == Upper([a[0], b[0]])
  {
    var s := a + (gap + b);
    assert a + gap + b == s;
    assert Trimmed(s);
    TrimmedIff(s);
    SplitTwoWords(a, gap, b);
  }

  // ---------------------------------------------------------------------------------------
  // Role changes

  /** The signed-in user as stored in the browser: `id` is what sign-in and registration
      store, `oid` the `_id` that only a profile update merges in. */
  datatype Viewer = Viewer(id: Option<string>, oid: Option<string>, role: string)

  /** `String(currentUser._id)`: the text of the stored `_id`, "undefined" while there is none. */
  function OidText(v: Viewer): (r: string)
    ensures v.oid.Some? ==> r == v.oid.value
    ensures v.oid.None? ==> r == "undefined"
  {
    if v.oid.Some? then v.oid.value else "undefined"
  }

  /** A user of the list. */
  datatype Member = Member(id: string, name: Option<string>, email: string, role: string)

  /** `currentUser && currentUser._id === u._id`: a missing `_id` matches no listed user. */
  predicate IsSelf(current: Option<Viewer>, u: Member) {
    current.Some? && current.value.oid == Some(u.id)
  }

  /** `canModify`: only a signed-in admin, and never on the account whose id the stored `_id`
      spells. */
  function CanModify(current: Option<Viewer>, u: Member): (r: bool)
    ensures r ==> current.Some? && current.value.role == "admin"
    ensures IsSelf(current, u) ==> !r
    ensures current.Some? && current.value.role == "admin" && !IsSelf(current, u) && u.id != "undefined" ==> r
  {
    if current.None? || current.value.role != "admin" then false
    else if OidText(current.value) == u.id then false
    else true
  }

  /** What clicking Demote does: refuse with an alert, or open the confirm dialog for `u`. */
  datatype DemoteRequest = Refused(alert: string) | Confirming(target: Member)

  function RequestDemoteConfirm(current: Option<Viewer>, u: Member): (r: DemoteRequest)
    ensures r.Refused? <==> IsSelf(current, u) || (current.Some? && current.value.oid.None? && u.id == "undefined")
    ensures r.Confirming? ==> r.target == u
  {
    if current.Some? && OidText(current.value) == u.id then Refused("You cannot demote your own admin account.")
    else Confirming(u)
  }

  /** What the row offers: nothing ("You"), Demote or Promote, each enabled or not. */
  datatype Action = NoAction | Demote(enabled: bool) | Promote(enabled: bool)

  /** The row's button; `updatingId` is the user whose change is in flight. */
  function ActionFor(current: Option<Viewer>, u: Member, updatingId: Option<string>): (a: Action)
    ensures a.NoAction? <==> IsSelf(current, u)
    ensures a.Demote? <==> !IsSelf(current, u) && u.role == "admin"
    ensures a.Promote? <==> !IsSelf(current, u) && u.role != "admin"
    ensures !a.NoAction? && a.enabled ==> updatingId != Some(u.id)
    ensures a.Demote? && a.enabled ==> CanModify(current, u)
  {
    if IsSelf(current, u) then NoAction
    else if u.role == "admin" then Demote(CanModify(current, u) && updatingId != Some(u.id))
    else Promote(updatingId != Some(u.id))
  }

  /** The role sent by the row's action (Demote after its confirmation). */
  function RoleSent(a: Action): (r: Option<string>)
    ensures r.None? <==> a.NoAction?
    ensures a.Promote? ==> r == Some("admin")
    ensures a.Demote? ==> r == Some("employee")
  {
    match a
    case NoAction => None
    case Demote(_) => Some("employee")
    case Promote(_) => Some("admin")
  }

  /** The row never offers a change of one's own role, and the Demote path refuses it too. */
  lemma NoSelfChange(current: Option<Viewer>, u: Member, updatingId: Option<string>)
    requires IsSelf(current, u)
    ensures RoleSent(ActionFor(current, u, updatingId)).None?
    ensures RequestDemoteConfirm(current, u).Refused?
    ensures !CanModify(current, u)
  {
  }

  /** Right after signing in, the stored user has an `id` but no `_id`: the admin's own row
      is not recognised, shows an enabled Demote, and the click opens the confirm dialog that
      sends "employee". Only the server's own self-demotion check stops the change. */
  lemma SelfDemoteAfterLogin(u: Member, updatingId: Option<string>)
    requires u.role == "admin" && u.id != "undefined" && updatingId != Some(u.id)
    ensures var v := Some(Viewer(Some(u.id), None, "admin"));
      !IsSelf(v, u) && CanModify(v, u)
      && ActionFor(v, u, updatingId) == Demote(true)
      && RequestDemoteConfirm(v, u) == Confirming(u)
      && RoleSent(ActionFor(v, u, updatingId)) == Some("employee")
  {
  }

  /** The account the stored user stands for: its `_id` when a profile update put one there,
      otherwise the `id` stored at sign-in. */
  function Account(v: Viewer): (r: Option<string>)
    ensures v.oid.Some? ==> r == v.oid
    ensures v.oid.None? ==> r == v.id
  {
    if v.oid.Some? then v.oid else v.id
  }

  /** The row is the viewer's own, by whichever id the stored user carries. */
  predicate Owns(current: Option<Viewer>, u: Member) {
    current.Some? && Account(current.value) == Some(u.id)
  }

  /** `canModify` comparing the account's id. */
  function CanModifyById(current: Option<Viewer>, u: Member): (r: bool)
    ensures r <==> current.Some? && current.value.role == "admin" && !Owns(current, u)
  {
    current.Some? && current.value.role == "admin" && Account(current.value) != Some(u.id)
  }

  /** `requestDemoteConfirm` comparing the account's id. */
  function RequestDemoteById(current: Option<Viewer>, u: Member): (r: DemoteRequest)
    ensures r.Refused? <==> Owns(current, u)
    ensures r.Confirming? ==> r.target == u
  {
    if Owns(current, u) then Refused("You cannot demote your own admin account.") else Confirming(u)
  }

  /** The row's button comparing the account's id. */
  function ActionById(current: Option<Viewer>, u: Member, updatingId: Option<string>): (a: Action)
    ensures a.NoAction? <==> Owns(current, u)
    ensures a.Demote? <==> !Owns(current, u) && u.role == "admin"
    ensures !a.NoAction? && a.enabled ==> updatingId != Some(u.id)
    ensures a.Demote? && a.enabled ==> CanModifyById(current, u)
  {
    if Owns(current, u) then NoAction
    else if u.role == "admin" then Demote(CanModifyById(current, u) && updatingId != Some(u.id))
    else Promote(updatingId != Some(u.id))
  }

  /** Compared by the account's id, one's own row offers no change, refuses a demotion and
      cannot be modified, whether the stored user came from sign-in or from a profile update;
      where the stored `_id` is present, the corrected row is the row as written. */
  lemma NoSelfChangeById(current: Option<Viewer>, u: Member, updatingId: Option<string>)
    ensures Owns(current, u) ==>
      RoleSent(ActionById(current, u, updatingId)).None? && RequestDemoteById(current, u).Refused?
      && !CanModifyById(current, u)
    ensures current.Some? && current.value.oid.Some? ==>
      ActionById(current, u, updatingId) == ActionFor(current, u, updatingId)
      && RequestDemoteById(current, u) == RequestDemoteConfirm(current, u)
      && CanModifyById(current, u) == CanModify(current, u)
    ensures Owns(Some(Viewer(Some(u.id), None, "admin")), u)
  {
  }

  /** Promote and Demote undo each other: once the role a row sends is stored, the same row
      offers the opposite action, and sending that restores the role. */
  lemma RoleChangeFlips(current: Option<Viewer>, u: Member, updatingId: Option<string>)
    requires !IsSelf(current, u) && (u.role == "admin" || u.role == "employee")
    ensures var a := ActionFor(current, u, updatingId);
      var u' := u.(role := RoleSent(a).value);
      var a' := ActionFor(current, u', updatingId);
      u'.role != u.role && (a.Demote? <==> a'.Promote?)
      && u'.(role := RoleSent(a').value) == u
  {
  }

  // ---------------------------------------------------------------------------------------
  // Paging

  /** The list query; changing any part of it goes back to page 1. */
  datatype ListQuery = ListQuery(search: string, sortBy: string, sortDir: string)

  function PageAfterQuery(page: nat, before: ListQuery, after: ListQuery): (p: nat)
    ensures before != after ==> p == 1
    ensures before == after ==> p == page
  {
    if before != after then 1 else page
  }

  /** `payload.pages || 1`: a missing or zero page count shows as one page. */
  function PagesShown(pages: Option<nat>): (r: nat)
    ensures r >= 1
    ensures pages.Some? && pages.value > 0 ==> r == pages.value
  {
    if pages.Some? && pages.value > 0 then pages.value else 1
  }

  /** Prev is disabled at `page <= 1`, Next at `page >= pages`. */
  function AfterClick(page: nat, next: bool, pages: nat): (r: nat)
    ensures r == page || (next && page < pages && r == page + 1) || (!next && page >= 2 && r + 1 == page)
    ensures next && page < pages ==> r == page + 1
    ensures !next && page >= 2 ==> r + 1 == page
  {
    if next then (if page >= pages then page else page + 1)
    else (if page <= 1 then page else page - 1)
  }

  /** The buttons keep the page between 1 and the page count, and a new query lands on page 1,
      which is always one of them. */
  lemma ClicksStayInRange(page: nat, next: bool, pages: Option<nat>, before: ListQuery, after: ListQuery)
    requires 1 <= page <= PagesShown(pages)
    ensures 1 <= AfterClick(page, next, PagesShown(pages)) <= PagesShown(pages)
    ensures 1 <= PageAfterQuery(page, before, after) <= PagesShown(pages)
  {
  }
}
