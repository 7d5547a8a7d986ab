/**
 * The product catalog (components/ProductStock.tsx): adding a product to
 * the signed-in user's list, removing one (refused to moderators), the
 * write-back into the all-users list, and the case-insensitive search.
 * Fresh ids, the current time, the confirm answer and the parsed price
 * inputs are parameters.
 */
module ProductStock {
  import opened Types
  import opened Text
  import opened Folds
  import opened UserDirectory

  /** The add form; each price box holds its parsed number, or `None` when it does not parse. */
  datatype ProductForm = ProductForm(name: string, code: string, buyPrice: Option<int>, sellPrice: Option<int>)

  const EmptyProductForm := ProductForm("", "", None, None)

  /** `user.products || []`. */
  function Products(user: UserProfile): seq<Product> {
    user.products.GetOr([])
  }

  /** The product `handleAdd` builds: prices that do not parse become 0. */
  function NewProduct(form: ProductForm, id: string, now: string): Product {
    Product(id, form.name, form.code, None, None, None, None, OrZero(form.buyPrice), OrZero(form.sellPrice), now)
  }

  /** `{ ...user, products: [...(user.products || []), newProduct] }`. */
  function AddProduct(user: UserProfile, form: ProductForm, id: string, now: string): (u: UserProfile)
    ensures u.products.Some? && |Products(u)| == |Products(user)| + 1
    ensures Products(u)[..|Products(user)|] == Products(user)
    ensures Products(u)[|Products(user)|] == NewProduct(form, id, now)
    ensures u.(products := user.products) == user
  {
    var ps := Products(user) + [NewProduct(form, id, now)];
    assert ps[..|Products(user)|] == Products(user);
    user.(products := Some(ps))
  }

  /** A price box that does not parse gives 0, and a parsed price is kept. */
  lemma PricesDefaultToZero(form: ProductForm, id: string, now: string)
    ensures NewProduct(form, id, now).buyPrice == if form.buyPrice.Some? then form.buyPrice.value else 0
    ensures NewProduct(form, id, now).sellPrice == if form.sellPrice.Some? then form.sellPrice.value else 0
  {
  }

  /**
   * `handleAdd`: without a user nothing happens; otherwise the session user
   * becomes the profile with the new product, that profile is written back
   * into the all-users list, and the form is cleared.
   */
  method HandleAdd(user: Option<UserProfile>, form: ProductForm, freshId: string, now: string,
                   allUsers: array<UserProfile>)
    returns (session: Option<UserProfile>, next: ProductForm)
    modifies allUsers
    ensures user.None? ==> session == user && next == form && allUsers[..] == old(allUsers[..])
    ensures user.Some? ==>
      && session == Some(AddProduct(user.value, form, freshId, now))
      && next == EmptyProductForm
      && allUsers[..] == ReplaceUser(old(allUsers[..]), user.value.id, session.value)
  {
    if user.None? {
      return user, form;
    }
    var updated := AddProduct(user.value, form, freshId, now);
    WriteBack(allUsers, user.value.id, updated);
    return Some(updated), EmptyProductForm;
  }

  function NotProduct(id: string): Product -> bool {
    (p: Product) => p.id != id
  }

  /**
   * `handleRemove`: a moderator is refused; without a user or a confirmation
   * nothing happens, and so too when the user has no product list (the
   * handler's `filter` throws). Otherwise only the product with the id goes.
   */
  function RemoveProduct(role: UserRole, user: Option<UserProfile>, confirmed: bool, id: string): (o: RemoveOutcome)
    ensures o.Denied? <==> role == UserRole.Moderator
    ensures o.Saved? <==> role != UserRole.Moderator && user.Some? && confirmed && user.value.products.Some?
    ensures o.Saved? ==> o.user.(products := user.value.products) == user.value && o.user.products.Some?
    ensures o.Saved? ==> forall p :: p in Products(o.user) <==> p in Products(user.value) && p.id != id
  {
    if role == UserRole.Moderator then Denied
    else if user.None? || !confirmed || user.value.products.None? then Unchanged
    else Saved(user.value.(products := Some(Filter(user.value.products.value, NotProduct(id)))))
  }

  /** A removal keeps the other products in their order. */
  lemma RemoveKeepsOrder(user: UserProfile, id: string)
    requires user.products.Some?
    ensures Subsequence(Products(RemoveProduct(Admin, Some(user), true, id).user), Products(user))
  {
    FilterIsSubsequence(user.products.value, NotProduct(id));
  }

  method HandleRemove(role: UserRole, user: Option<UserProfile>, confirmed: bool, id: string,
                      allUsers: array<UserProfile>)
    returns (o: RemoveOutcome)
    modifies allUsers
    ensures o == RemoveProduct(role, user, confirmed, id)
    ensures o.Saved? ==> allUsers[..] == ReplaceUser(old(allUsers[..]), user.value.id, o.user)
    ensures !o.Saved? ==> allUsers[..] == old(allUsers[..])
  {
    o := RemoveProduct(role, user, confirmed, id);
    if o.Saved? {
      WriteBack(allUsers, user.value.id, o.user);
    }
  }

  /** `user?.products?.filter(...) || []`: the products shown before searching. */
  function Listed(user: Option<UserProfile>): seq<Product> {
    if user.Some? && user.value.products.Some? then user.value.products.value else []
  }

  function MatchesTerm(term: string): Product -> bool {
    (p: Product) => Contains(Lower(p.name), Lower(term)) || Contains(Lower(p.code), Lower(term))
  }

  /** `filtered`: the products whose name or code contains the term, ignoring letter case. */
  function Search(user: Option<UserProfile>, term: string): (r: seq<Product>)
    ensures forall p :: p in r <==>
      p in Listed(user) && (Contains(Lower(p.name), Lower(term)) || Contains(Lower(p.code), Lower(term)))
  {
    Filter(Listed(user), MatchesTerm(term))
  }

  /** An empty term lists every product, and any term keeps the listing's order. */
  lemma SearchEmptyTerm(user: Option<UserProfile>, term: string)
    ensures Search(user, "") == Listed(user)
    ensures Subsequence(Search(user, term), Listed(user))
  {
    forall p | p in Listed(user)
      ensures MatchesTerm("")(p)
    {
      ContainsEmpty(Lower(p.name));
    }
    FilterAll(Listed(user), MatchesTerm(""));
    FilterIsSubsequence(Listed(user), MatchesTerm(term));
  }

  /** Letter case in the term makes no difference to what is found. */
  lemma SearchIgnoresCase(user: Option<UserProfile>, term: string)
    ensures Search(user, Lower(term)) == Search(user, term)
  {
    LowerIdempotent(term);
    FilterCongruent(Listed(user), MatchesTerm(Lower(term)), MatchesTerm(term));
  }
}
