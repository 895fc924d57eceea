/** The SMS credit hook (src/hooks/useUserCredits.ts): the credit record the
    query reports for a client profile or a platform user, and the update
    `purchaseCredits` sends. Remote reads are inputs; timestamps are left out. */
module Credits {
  import opened Common
  import opened AuthProvider
  import opened Ownership

  /** A credit record; a numeric column may be null in a stored row. */
  datatype UserCredits = UserCredits(
    id: string,
    userId: string,
    serviceType: string,
    credits: Option<int>,
    creditsRemaining: Option<int>,
    creditsPurchased: Option<int>)

  /** The outcome of reading `client_profiles.sms_balance`. */
  datatype BalanceRead = BalanceError | Balance(smsBalance: Option<int>)

  /** The outcome of the `user_credits` lookup (`maybeSingle`). */
  datatype CreditsRead = CreditsError(message: string) | NoRow | Row(row: UserCredits)

  /** JavaScript `x || d` on a nullable number: null and 0 fall through. */
  function NumOr(x: Option<int>, d: int): (r: int)
    ensures x.Some? && x.value != 0 ==> r == x.value
    ensures x.None? || x.value == 0 ==> r == d
  {
    if x.Some? && x.value != 0 then x.value else d
  }

  /** The all-zero record reported when there is nothing to read. */
  function DefaultCredits(owner: string): (r: UserCredits)
    ensures r.id == "default" && r.userId == owner && r.serviceType == "sms"
    ensures r.credits == r.creditsRemaining == r.creditsPurchased == Some(0)
  {
    UserCredits("default", owner, "sms", Some(0), Some(0), Some(0))
  }

  /** A client profile's balance presented as a credit record. */
  function FromBalance(profileId: string, smsBalance: Option<int>): (r: UserCredits)
    ensures r.id == r.userId == profileId && r.serviceType == "sms"
    ensures r.credits == r.creditsRemaining == r.creditsPurchased == Some(NumOr(smsBalance, 0))
  {
    var b := NumOr(smsBalance, 0);
    UserCredits(profileId, profileId, "sms", Some(b), Some(b), Some(b))
  }

  /** `{ ...data, credits_remaining: data.credits_remaining || data.credits || 0 }`. */
  function FromRow(row: UserCredits): (r: UserCredits)
    ensures r.id == row.id && r.userId == row.userId && r.serviceType == row.serviceType
    ensures r.credits == row.credits && r.creditsPurchased == row.creditsPurchased
    ensures r.creditsRemaining.Some?
  {
    row.(creditsRemaining := Some(NumOr(row.creditsRemaining, NumOr(row.credits, 0))))
  }

  /** The query function: `Ok(None)` is the `null` result, `Err` a thrown error. */
  function CreditsQuery(c: AuthContextValue, balance: BalanceRead, read: CreditsRead): (r: Result<Option<UserCredits>>)
    ensures r.Err? <==> !(c.isClientProfile && c.clientProfile.Some?) && c.user.Some? && read.CreditsError?
    ensures r.Err? ==> r.message == read.message
    ensures r == Ok(None) <==> OwnerId(c).Err?
    ensures !(c.isClientProfile && c.clientProfile.Some?) && c.user.Some? && read.NoRow? ==>
      r == Ok(Some(DefaultCredits(c.user.value.id)))
    ensures !(c.isClientProfile && c.clientProfile.Some?) && c.user.Some? && read.Row? ==>
      r == Ok(Some(FromRow(read.row)))
  {
    if c.isClientProfile && c.clientProfile.Some? then
      var id := c.clientProfile.value.id;
      match balance
      case BalanceError => Ok(Some(DefaultCredits(id)))
      case Balance(b) => Ok(Some(FromBalance(id, b)))
    else if c.user.Some? then
      match read
      case CreditsError(m) => Err(m)
      case NoRow => Ok(Some(DefaultCredits(c.user.value.id)))
      case Row(row) => Ok(Some(FromRow(row)))
    else Ok(None)
  }

  /** A client profile always gets a record, never an error: a failed
      balance read gives the all-zero record, otherwise all three counts are
      the balance (0 when missing). */
  lemma ClientProfileCredits(c: AuthContextValue, balance: BalanceRead, read: CreditsRead)
    requires c.isClientProfile && c.clientProfile.Some?
    ensures var r := CreditsQuery(c, balance, read);
      r.Ok? && r.value.Some? && r.value.value.userId == c.clientProfile.value.id
      && (balance.BalanceError? ==> r.value.value == DefaultCredits(c.clientProfile.value.id))
      && (balance.Balance? ==>
            r.value.value.credits == r.value.value.creditsRemaining == r.value.value.creditsPurchased
            == Some(balance.smsBalance.GetOr(0)))
  {
  }

  /** For a stored row the remaining count falls back to the credits and then
      to 0, and every other column passes through. */
  lemma UserRowCredits(row: UserCredits)
    ensures var r := FromRow(row);
      r.creditsRemaining == Some(
        if row.creditsRemaining.Some? && row.creditsRemaining.value != 0 then row.creditsRemaining.value
        else if row.credits.Some? && row.credits.value != 0 then row.credits.value
        else 0)
      && r.(creditsRemaining := row.creditsRemaining) == row
  {
  }

  /** Whatever the reads return, a reported record belongs to the owner
      (for a stored row, given that the lookup matched it by user id). */
  lemma CreditsBelongToOwner(c: AuthContextValue, balance: BalanceRead, read: CreditsRead)
    requires read.Row? && OwnerId(c).Ok? ==> read.row.userId == OwnerId(c).value
    ensures var r := CreditsQuery(c, balance, read);
      r.Ok? && r.value.Some? ==> OwnerId(c).Ok? && r.value.value.userId == OwnerId(c).value
  {
  }

  // ---------------------------------------------------------------------
  // purchaseCredits

  /** The update sent to the `user_credits` table, filtered to the owner's
      SMS row. */
  datatype CreditsUpdate = CreditsUpdate(
    table: string,
    userId: string,
    serviceType: string,
    credits: int,
    creditsRemaining: int,
    creditsPurchased: int)

  /** The counts of the record the hook currently holds, 0 when missing. */
  function Held(credits: Option<UserCredits>): (counts: (int, int, int)) {
    if credits.None? then (0, 0, 0)
    else (NumOr(credits.value.credits, 0), NumOr(credits.value.creditsRemaining, 0),
          NumOr(credits.value.creditsPurchased, 0))
  }

  function PurchaseCredits(c: AuthContextValue, credits: Option<UserCredits>, amount: int): (r: Result<CreditsUpdate>)
    ensures r.Ok? <==> OwnerId(c).Ok?
    ensures r.Err? ==> r.message == NoAuthenticatedUser
    ensures r.Ok? ==>
      r.value.table == "user_credits" && r.value.serviceType == "sms" && r.value.userId == OwnerId(c).value
    ensures r.Ok? ==>
      && r.value.credits - Held(credits).0 == amount
      && r.value.creditsRemaining - Held(credits).1 == amount
      && r.value.creditsPurchased - Held(credits).2 == amount
  {
    match OwnerId(c)
    case Err(m) => Err(m)
    case Ok(owner) =>
      var held := Held(credits);
      Ok(CreditsUpdate("user_credits", owner, "sms", held.0 + amount, held.1 + amount, held.2 + amount))
  }

  /** A client profile's purchase continues from its balance: all three new
      counts are the balance plus the amount. The write still goes to
      `user_credits` under the profile's id, not to the balance it was read from. */
  lemma PurchaseAfterBalance(c: AuthContextValue, b: Option<int>, amount: int)
    requires c.isClientProfile && c.clientProfile.Some?
    ensures var r := PurchaseCredits(c, CreditsQuery(c, Balance(b), NoRow).value, amount);
      r.Ok? && r.value.table == "user_credits" && r.value.userId == c.clientProfile.value.id
      && r.value.credits == r.value.creditsRemaining == r.value.creditsPurchased == NumOr(b, 0) + amount
  {
  }

  /** Two purchases add up: buying `a` then `b` from the record the first
      update writes ends where buying `a + b` at once ends. */
  lemma PurchasesAccumulate(c: AuthContextValue, credits: Option<UserCredits>, a: int, b: int)
    requires OwnerId(c).Ok?
    ensures var first := PurchaseCredits(c, credits, a).value;
      var after := Some(UserCredits("", first.userId, "sms", Some(first.credits),
                                    Some(first.creditsRemaining), Some(first.creditsPurchased)));
      var second := PurchaseCredits(c, after, b).value;
      var once := PurchaseCredits(c, credits, a + b).value;
      second.credits == once.credits && second.creditsRemaining == once.creditsRemaining
        && second.creditsPurchased == once.creditsPurchased
  {
  }
}
