/** Purses: the steps that open, edit, close and reopen them. */
module Purses {
  import opened Rows
  import opened Contributions

  /** Purse amounts must exceed one hundred naira. */
  const MINIMUM_AMOUNT: Kobo := 10_000

  function PutPurse(db: Db, p: nat, purse: Purse): Db
    requires p < |db.purses|
  {
    db.(purses := db.purses[p := purse])
  }

  /** Each action records the facts it can change. */
  function Recorded(action: PurseAction, purse: Purse): PurseFacts {
    match action
    case Edited => PurseFacts(Some(purse.amount), Some(purse.deadline), None)
    case ClosedByAdmin => PurseFacts(None, None, Some(purse.status))
    case Reopened => PurseFacts(None, Some(purse.deadline), Some(purse.status))
  }

  function Audit(db: Db, p: nat, action: PurseAction, admin: Admin, before: Purse): Db
    requires p < |db.purses|
  {
    db.(audit := db.audit +
      [PurseChange(p, action, admin.id, Recorded(action, before), Recorded(action, db.purses[p]))])
  }

  function CreatePurse(db: Db, admin: Admin, amount: Kobo, deadline: Time, now: Time): (Db, Result<nat, AppError>) {
    if amount <= MINIMUM_AMOUNT then (db, Err(InvalidRequest))
    else if deadline <= now then (db, Err(InvalidDeadline))
    else if admin.group >= db.groups then (db, Err(NotFound))
    else (db.(purses := db.purses + [Purse(admin.group, amount, deadline, Open)]), Ok(|db.purses|))
  }

  /** One more person owes the purse its current amount. */
  function Enrol(db: Db, p: nat, now: Time): (Db, Result<nat, AppError>) {
    if p >= |db.purses| then (db, Err(NotFound))
    else if !db.purses[p].status.Open? then (db, Err(PurseNotOpen))
    else (db.(contributions := db.contributions + [NewContribution(p, db.purses[p].amount, now)]),
          Ok(|db.contributions|))
  }

  /** A new amount reaches the purse and its pending contributions. */
  function Reprice(db: Db, p: nat, amount: Option<Kobo>, now: Time): (db': Db)
    requires p < |db.purses|
    ensures |db'.purses| == |db.purses|
  {
    if amount.None? then db
    else UpdateAmountForPending(PutPurse(db, p, db.purses[p].(amount := amount.value)), p, amount.value, now)
  }

  function Redate(db: Db, p: nat, deadline: Option<Time>): (db': Db)
    requires p < |db.purses|
    ensures |db'.purses| == |db.purses|
  {
    if deadline.None? then db else PutPurse(db, p, db.purses[p].(deadline := deadline.value))
  }

  /** Why an edit is refused, if it is. */
  function EditRefused(db: Db, admin: Admin, p: nat, amount: Option<Kobo>, deadline: Option<Time>, now: Time)
    : (r: Option<AppError>)
    ensures r.None? ==> p < |db.purses|
  {
    if amount.Some? && amount.value <= MINIMUM_AMOUNT then Some(InvalidRequest)
    else if p >= |db.purses| then Some(NotFound)
    else if db.purses[p].group != admin.group then Some(WrongGroup)
    else if !db.purses[p].status.Open? then Some(PurseNotOpen)
    else if deadline.Some? && deadline.value <= now then Some(InvalidDeadline)
    else None
  }

  function UpdatePurse(db: Db, admin: Admin, p: nat, amount: Option<Kobo>, deadline: Option<Time>, now: Time)
    : (Db, Result<(), AppError>)
  {
    match EditRefused(db, admin, p, amount, deadline, now)
    case Some(error) => (db, Err(error))
    case None => (Audit(Redate(Reprice(db, p, amount, now), p, deadline), p, Edited, admin, db.purses[p]), Ok(()))
  }

  /** A purse may be closed in any state. */
  function ClosePurse(db: Db, admin: Admin, p: nat): (Db, Result<(), AppError>) {
    if p >= |db.purses| then (db, Err(NotFound))
    else if db.purses[p].group != admin.group then (db, Err(WrongGroup))
    else (Audit(PutPurse(db, p, db.purses[p].(status := Closed)), p, ClosedByAdmin, admin, db.purses[p]), Ok(()))
  }

  function ReopenPurse(db: Db, admin: Admin, p: nat, deadline: Time, now: Time): (Db, Result<(), AppError>) {
    if p >= |db.purses| then (db, Err(NotFound))
    else if db.purses[p].group != admin.group then (db, Err(WrongGroup))
    else if !db.purses[p].status.Closed? then (db, Err(PurseNotClosed))
    else if deadline <= now then (db, Err(InvalidDeadline))
    else (Audit(PutPurse(db, p, db.purses[p].(status := Open, deadline := deadline)), p, Reopened, admin, db.purses[p]), Ok(()))
  }
}
