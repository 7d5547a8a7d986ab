/**
 * The record types shared by every screen of the point-of-sale app
 * (types.ts). Money, prices and quantities are integers in minor units:
 * the app's floating-point arithmetic is abstracted.
 */
module Types {

  datatype Option<+T> = None | Some(value: T) {
    /** JavaScript's `x || d` on a possibly-undefined value. */
    function GetOr(default: T): T {
      match this
      case Some(v) => v
      case None => default
    }
  }

  datatype TransactionType = Income | Expense | Due

  datatype UserRole = Admin | Moderator

  datatype Language = EN | BN

  datatype Moderator = Moderator(
    id: string,
    name: string,
    email: string,
    code: string,
    profilePic: Option<string>)

  /**
   * A catalog entry. The stock screen creates products without a category,
   * colour, size or stock quantity, so those fields may be absent.
   */
  datatype Product = Product(
    id: string,
    name: string,
    code: string,
    category: Option<string>,
    color: Option<string>,
    size: Option<string>,
    stockQuantity: Option<int>,
    buyPrice: int,
    sellPrice: int,
    addedAt: string)

  datatype SaleRecord = SaleRecord(
    id: string,
    invoiceId: string,
    date: string,
    productName: string,
    category: string,
    qty: int,
    sellPrice: int,
    buyPrice: int,
    profit: int)

  datatype Partner = Partner(
    id: string,
    name: string,
    mobile: string,
    description: string)

  /** A ledger entry; `date` is an ISO 8601 `YYYY-MM-DD` string. */
  datatype Transaction = Transaction(
    id: string,
    userId: string,
    txType: TransactionType,
    amount: int,
    description: string,
    category: string,
    date: string,
    createdAt: string,
    profit: Option<int>)

  /** What callers hand to the ledger: a transaction without id, owner and creation stamp. */
  datatype NewTransaction = NewTransaction(
    txType: TransactionType,
    amount: int,
    description: string,
    category: string,
    date: string,
    profit: Option<int>)

  /**
   * An account. Sign-up stores accounts without moderators, products,
   * partners or sales, so those lists may be absent.
   */
  datatype UserProfile = UserProfile(
    id: string,
    name: string,
    email: string,
    mobile: string,
    password: string,
    secretCode: string,
    currency: string,
    profilePic: Option<string>,
    primaryColor: Option<string>,
    accounts: seq<string>,
    moderators: Option<seq<Moderator>>,
    products: Option<seq<Product>>,
    partners: Option<seq<Partner>>,
    sales: Option<seq<SaleRecord>>)

  /** `parseFloat(text) || 0`: an input that does not parse (or parses to 0) gives 0. */
  function OrZero(parsed: Option<int>): int
  {
    parsed.GetOr(0)
  }
}
