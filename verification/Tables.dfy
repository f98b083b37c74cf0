/** The mutable database that the services share. */
module Tables {
  import opened Rows

  class Database {
    const groups: nat
    var purses: seq<Purse>
    var contributions: seq<Contribution>
    var contributionEvents: seq<ContributionEvent>
    var payouts: seq<Payout>
    var allocations: seq<Allocation>
    var payoutEvents: seq<PayoutEvent>
    var webhookEvents: seq<WebhookEvent>
    var audit: seq<AuditEntry>
    // The provider's own book of invoices, and the history of money booked.
    var invoices: map<Ref, IssuedInvoice>
    var credits: seq<Credit>

    constructor (groups: nat)
      ensures State() == EmptyDb(groups)
    {
      this.groups := groups;
      purses, contributions, contributionEvents := [], [], [];
      payouts, allocations, payoutEvents := [], [], [];
      webhookEvents, audit := [], [];
      invoices, credits := map[], [];
    }

    /** The tables as one value; a query is a function of it. */
    function State(): Db
      reads this
    {
      Db(groups, purses, contributions, contributionEvents, payouts, allocations, payoutEvents,
         webhookEvents, audit, invoices, credits)
    }
  }
}
