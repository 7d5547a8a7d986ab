/**
 * The partner contacts (components/PartnerContact.tsx): adding a partner to
 * the signed-in user's list, removing one (refused to moderators), the
 * write-back into the all-users list, and the search that matches names
 * ignoring letter case but mobile numbers exactly.
 */
module PartnerContact {
  import opened Types
  import opened Text
  import opened Folds
  import opened UserDirectory

  datatype PartnerForm = PartnerForm(name: string, mobile: string, description: string)

  const EmptyPartnerForm := PartnerForm("", "", "")

  /** `user.partners || []`. */
  function Partners(user: UserProfile): seq<Partner> {
    user.partners.GetOr([])
  }

  /** `{ ...user, partners: [...(user.partners || []), newPartner] }`. */
  function AddPartner(user: UserProfile, form: PartnerForm, id: string): (u: UserProfile)
    ensures u.partners.Some? && |Partners(u)| == |Partners(user)| + 1
    ensures Partners(u)[..|Partners(user)|] == Partners(user)
    ensures Partners(u)[|Partners(user)|] == Partner(id, form.name, form.mobile, form.description)
    ensures u.(partners := user.partners) == user
  {
    var ps := Partners(user) + [Partner(id, form.name, form.mobile, form.description)];
    assert ps[..|Partners(user)|] == Partners(user);
    user.(partners := Some(ps))
  }

  /** `handleAdd`: without a user nothing happens; otherwise the new profile is the session's and is written back. */
  method HandleAdd(user: Option<UserProfile>, form: PartnerForm, freshId: string, allUsers: array<UserProfile>)
    returns (session: Option<UserProfile>, next: PartnerForm)
    modifies allUsers
    ensures user.None? ==> session == user && next == form && allUsers[..] == old(allUsers[..])
    ensures user.Some? ==>
      && session == Some(AddPartner(user.value, form, freshId))
      && next == EmptyPartnerForm
      && allUsers[..] == ReplaceUser(old(allUsers[..]), user.value.id, session.value)
  {
    if user.None? {
      return user, form;
    }
    var updated := AddPartner(user.value, form, freshId);
    WriteBack(allUsers, user.value.id, updated);
    return Some(updated), EmptyPartnerForm;
  }

  function NotPartner(id: string): Partner -> bool {
    (p: Partner) => p.id != id
  }

  /**
   * `handleRemove`: a moderator is refused; without a user or a confirmation
   * nothing happens, and so too when the user has no partner list (the
   * handler's `filter` throws). Otherwise only the partner with the id goes.
   */
  function RemovePartner(role: UserRole, user: Option<UserProfile>, confirmed: bool, id: string): (o: RemoveOutcome)
    ensures o.Denied? <==> role == UserRole.Moderator
    ensures o.Saved? <==> role != UserRole.Moderator && user.Some? && confirmed && user.value.partners.Some?
    ensures o.Saved? ==> o.user.(partners := user.value.partners) == user.value && o.user.partners.Some?
    ensures o.Saved? ==> forall p :: p in Partners(o.user) <==> p in Partners(user.value) && p.id != id
  {
    if role == UserRole.Moderator then Denied
    else if user.None? || !confirmed || user.value.partners.None? then Unchanged
    else Saved(user.value.(partners := Some(Filter(user.value.partners.value, NotPartner(id)))))
  }

  /** A removal keeps the other partners in their order. */
  lemma RemoveKeepsOrder(user: UserProfile, id: string)
    requires user.partners.Some?
    ensures Subsequence(Partners(RemovePartner(Admin, Some(user), true, id).user), Partners(user))
  {
    FilterIsSubsequence(user.partners.value, NotPartner(id));
  }

  method HandleRemove(role: UserRole, user: Option<UserProfile>, confirmed: bool, id: string,
                      allUsers: array<UserProfile>)
    returns (o: RemoveOutcome)
    modifies allUsers
    ensures o == RemovePartner(role, user, confirmed, id)
    ensures o.Saved? ==> allUsers[..] == ReplaceUser(old(allUsers[..]), user.value.id, o.user)
    ensures !o.Saved? ==> allUsers[..] == old(allUsers[..])
  {
    o := RemovePartner(role, user, confirmed, id);
    if o.Saved? {
      WriteBack(allUsers, user.value.id, o.user);
    }
  }

  /** `user?.partners?.filter(...) || []`: the partners shown before searching. */
  function Listed(user: Option<UserProfile>): seq<Partner> {
    if user.Some? && user.value.partners.Some? then user.value.partners.value else []
  }

  function MatchesTerm(term: string): Partner -> bool {
    (p: Partner) => Contains(Lower(p.name), Lower(term)) || Contains(p.mobile, term)
  }

  /** `filtered`: the partners whose name contains the term ignoring case, or whose mobile contains it as typed. */
  function Search(user: Option<UserProfile>, term: string): (r: seq<Partner>)
    ensures forall p :: p in r <==> p in Listed(user) && (Contains(Lower(p.name), Lower(term)) || Contains(p.mobile, term))
  {
    Filter(Listed(user), MatchesTerm(term))
  }

  /** An empty term lists every partner, and any term keeps the listing's order. */
  lemma SearchEmptyTerm(user: Option<UserProfile>, term: string)
    ensures Search(user, "") == Listed(user)
    ensures Subsequence(Search(user, term), Listed(user))
  {
    forall p | p in Listed(user)
      ensures MatchesTerm("")(p)
    {
      ContainsEmpty(p.mobile);
    }
    FilterAll(Listed(user), MatchesTerm(""));
    FilterIsSubsequence(Listed(user), MatchesTerm(term));
  }

  /** A name is found whatever the letter case of the term. */
  lemma NameMatchIgnoresCase(user: Option<UserProfile>, term: string, p: Partner)
    requires p in Listed(user) && Contains(Lower(p.name), Lower(term))
    ensures p in Search(user, term) && p in Search(user, Lower(term))
  {
    LowerIdempotent(term);
  }

  /**
   * A mobile number is matched as typed: a partner whose name does not hold
   * the term is found by `"X1"` when the mobile is `"X1"`, and missed by `"x1"`.
   */
  lemma MobileMatchKeepsCase(user: UserProfile)
    requires user.partners == Some([Partner("PAR-1", "Rahim", "X1", "")])
    ensures Search(Some(user), "X1") == [Partner("PAR-1", "Rahim", "X1", "")]
    ensures Search(Some(user), "x1") == []
  {
    var p := Partner("PAR-1", "Rahim", "X1", "");
    MatchesExactMobileOnly(p);
    assert Listed(Some(user)) == [p];
    assert [p][..0] == [];
    assert Filter([p], MatchesTerm("X1")) == Filter([], MatchesTerm("X1")) + [p];
    assert Filter([p], MatchesTerm("x1")) == Filter([], MatchesTerm("x1"));
  }

  lemma MatchesExactMobileOnly(p: Partner)
    requires p == Partner("PAR-1", "Rahim", "X1", "")
    ensures MatchesTerm("X1")(p) && !MatchesTerm("x1")(p)
  {
    assert Lower("x1") == "x1";
    assert Lower("X1") == "x1";
    assert Lower("Rahim") == "rahim";
    assert 'x' !in "rahim";
    NotContainsFirst("rahim", "x1");
    assert 'x' !in "X1";
    NotContainsFirst("X1", "x1");
    assert Contains("X1", "X1");
  }
}
