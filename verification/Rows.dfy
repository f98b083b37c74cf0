/** The rows of the database, and the database itself. Money is integer kobo,
    time is seconds, and the id of a row is its position in its table: tables
    only ever grow. */
module Rows {

  datatype Option<+T> = None | Some(value: T)

  datatype Result<+T, +E> = Ok(value: T) | Err(error: E)

  type Kobo = int
  type Time = int
  type Ref = string

  datatype PurseStatus = Open | Closed | Archived

  datatype ContributionStatus = Pending | Paid | Expired | Flagged | PaidManual

  datatype PayoutStatus = Requested | Approved | Processing | Completed | Failed | Rejected

  /** Who moved a contribution. */
  datatype ActorType = Webhook | ReconciliationJob | RepManual

  /** Who moved a payout. */
  datatype PayoutActorType = GroupAdminActor | PlatformAdminActor | TransferWebhook

  /** The actor types of the audit log, which both of the above map into. */
  datatype AuditActorType = ByGroupAdmin | ByPlatformAdmin | ByMember | ByWebhook | ByReconciliationJob

  datatype Purse = Purse(group: nat, amount: Kobo, deadline: Time, status: PurseStatus)

  datatype Contribution = Contribution(
    purse: nat,
    expected: Kobo,
    received: Kobo,
    status: ContributionStatus,
    invoice: Option<Ref>,
    account: Option<string>,
    expiresAt: Option<Time>,
    feePercent: Option<nat>,
    paidAt: Option<Time>,
    updatedAt: Time)

  datatype ContributionEvent = ContributionEvent(
    contribution: nat, from: ContributionStatus, to: ContributionStatus, actor: ActorType, actorId: Option<nat>)

  /** purse is None for a sweep over the whole group. */
  datatype Payout = Payout(
    group: nat,
    purse: Option<nat>,
    amount: Kobo,
    status: PayoutStatus,
    requestedBy: nat,
    approvedBy: Option<nat>,
    transferRef: Option<Ref>,
    failureReason: Option<string>,
    rejectionReason: Option<string>)

  /** A purse's share of a sweep. */
  datatype Allocation = Allocation(payout: nat, purse: nat, amount: Kobo)

  datatype PayoutEvent = PayoutEvent(
    payout: nat, from: PayoutStatus, to: PayoutStatus, actor: PayoutActorType, actorId: Option<nat>)

  datatype PurseAction = Edited | ClosedByAdmin | Reopened

  /** What an audit row about a purse records of its state. */
  datatype PurseFacts = PurseFacts(amount: Option<Kobo>, deadline: Option<Time>, status: Option<PurseStatus>)

  datatype AuditEntry =
    | ContributionTransition(
        contribution: nat, cFrom: ContributionStatus, cTo: ContributionStatus,
        actor: AuditActorType, actorId: Option<nat>)
    | PayoutTransition(
        payout: nat, pFrom: PayoutStatus, pTo: PayoutStatus, actor: AuditActorType, actorId: Option<nat>)
    | PurseChange(purse: nat, action: PurseAction, adminId: nat, before: PurseFacts, after: PurseFacts)

  /** What a payment provider's notification says, once parsed. */
  datatype Payload =
    | Collection(paymentRef: Ref, transactionRef: Ref, amount: nat, paidOn: Option<Time>)
    | RejectedPayment(rejectedRef: Ref)
    | Transfer(reference: Ref, success: bool, reason: Option<string>)
    | OtherEvent

  datatype ProcessingError =
    | NotACollectionEvent
    | NotATransferEvent
    | NoMatchingContribution
    | ContributionAlready(contribution: ContributionStatus)
    | PaymentRejectedUnmatched
    | PaymentRejected(contribution: ContributionStatus)
    | NoMatchingPayout
    | PayoutAlready(payout: PayoutStatus)

  datatype WebhookEvent = WebhookEvent(
    providerEventId: string, payload: Payload, processed: bool, error: Option<ProcessingError>)

  /** The provider's own record of an invoice: whom it was issued for, and for how much. */
  datatype IssuedInvoice = IssuedInvoice(contribution: nat, amount: Kobo)

  /** Money booked on a contribution: through an invoice, or logged by a rep (no reference). */
  datatype Credit = Credit(contribution: nat, ref: Option<Ref>, amount: Kobo)

  /** The tables, together with the provider's invoice book and the history of credits. */
  datatype Db = Db(
    groups: nat,
    purses: seq<Purse>,
    contributions: seq<Contribution>,
    contributionEvents: seq<ContributionEvent>,
    payouts: seq<Payout>,
    allocations: seq<Allocation>,
    payoutEvents: seq<PayoutEvent>,
    webhookEvents: seq<WebhookEvent>,
    audit: seq<AuditEntry>,
    invoices: map<Ref, IssuedInvoice>,
    credits: seq<Credit>)

  function EmptyDb(groups: nat): Db {
    Db(groups, [], [], [], [], [], [], [], [], map[], [])
  }

  /** A group admin: their own id and the group they act for. */
  datatype Admin = Admin(id: nat, group: nat)

  datatype AppError =
    | InvalidRequest
    | NotFound
    | WrongGroup
    | CustodianModeDisabled
    | DirectModeNoPayout
    | InsufficientBalance
    | PayoutNotRequestable
    | PurseClosed
    | PurseNotOpen
    | PurseNotClosed
    | InvalidDeadline
    | InvoiceNotGeneratable
    | ProviderFailed
    | AlreadyResolved
    | NotFlagged
    | RefundNotSupported
    | InvalidResolution
}
