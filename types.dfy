/**
 * The ledger records the balance engine reads (types/index.ts), reduced to
 * the fields it uses. Money is held as integer cents throughout, so the
 * engine's `EPSILON = 0.01` becomes one cent.
 */
module Types {

  type Uid = string

  /** Balances within one cent of zero count as settled. */
  const Epsilon: int := 1

  datatype Option<T> = None | Some(value: T)

  /** A group member; role, e-mail, status and join date are not read by the engine. */
  datatype Member = Member(uid: Uid, displayName: string)

  /** A payer line or a split line: one member's share of an expense. */
  datatype Line = Line(uid: Uid, amount: int)

  /** An expense; an absent `isDeleted` flag is `false`. */
  datatype Expense = Expense(totalAmount: int, payers: seq<Line>, splits: seq<Line>, isDeleted: bool)

  /** A recorded transfer between two members. */
  datatype Payment = Payment(fromUid: Uid, toUid: Uid, amount: int, isDeleted: bool)

  /** A suggested transfer: `fromUid` pays `amount` to `toUid`. */
  datatype Settlement = Settlement(fromUid: Uid, toUid: Uid, amount: int)

  function Abs(x: int): int { if x < 0 then -x else x }

  function Min(a: int, b: int): int { if a <= b then a else b }

  /** `m[u] ?? 0` */
  function Get(m: map<Uid, int>, u: Uid): int { if u in m then m[u] else 0 }

  /** The dictionary update `m[u] = (m[u] ?? 0) + d`. */
  function Post(m: map<Uid, int>, u: Uid, d: int): map<Uid, int> { m[u := Get(m, u) + d] }
}
