/** The tables as the services write them: rows replaced, rows inserted, and a transaction undone as a whole. */
module Database {
  import opened Wrappers
  import opened Gates
  import opened Control
  import opened Ledger
  import opened Orders

  class Database {
    var control: Option<ControlRow>
    var policies: seq<RiskPolicy>
    var evidence: seq<Evidence>
    var accounts: seq<Account>
    var entries: seq<Entry>
    var decisions: seq<Decision>
    var orders: seq<Order>
    var receipts: seq<Receipt>

    constructor (controlId: string)
      ensures Snapshot() == Tables(Bootstrapped(controlId), Book([], []), [], [], [])
    {
      control := Bootstrapped(controlId).control;
      policies, evidence, accounts, entries, decisions, orders, receipts := [], [], [], [], [], [], [];
    }

    function ControlState(): ControlTables
      reads this`control, this`policies, this`evidence
    {
      ControlTables(control, policies, evidence)
    }

    function LedgerState(): Book
      reads this`accounts, this`entries
    {
      Book(accounts, entries)
    }

    function Snapshot(): Tables
      reads this
    {
      Tables(ControlState(), LedgerState(), decisions, orders, receipts)
    }

    /** What an error inside a transaction does. */
    method Rollback(saved: Tables)
      modifies this
      ensures Snapshot() == saved
    {
      control, policies, evidence := saved.control.control, saved.control.policies, saved.control.evidence;
      accounts, entries := saved.book.accounts, saved.book.entries;
      decisions, orders, receipts := saved.decisions, saved.orders, saved.receipts;
    }
  }
}
