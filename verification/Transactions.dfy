/** Transactions, their pool statuses and the tasks that carry them (src/transaction.rs). */
module Transactions {
  import opened Wrappers

  /** Transaction and block hashes are opaque values; only their equality matters. */
  datatype Hash = Hash(id: nat)

  datatype Error =
    | Other(message: string)
    | MortalLifetimeSurpassed(block: nat)

  datatype AccountMetadata = NoAccount | Derived(index: nat) | KeyRing(name: string)

  datatype TransactionStatus =
    | Validated
    | Broadcasted
    | InBlock(block: Hash)
    | NoLongerInBestBlock
    | Finalized(block: Hash)
    | Dropped(reason: string)
    | Invalid(reason: string)
    | Errored(reason: string)
  {
    predicate IsTerminal() {
      Finalized? || Dropped? || Invalid? || Errored?
    }

    predicate IsFinalized() {
      Finalized?
    }

    predicate IsError() {
      Dropped? || Invalid? || Errored?
    }

    function GetLetter(): char {
      match this
      case Validated => 'V'
      case Broadcasted => 'b'
      case InBlock(_) => 'B'
      case Finalized(_) => 'F'
      case Errored(_) => 'E'
      case Invalid(_) => 'I'
      case Dropped(_) => 'D'
      case NoLongerInBestBlock => 'N'
    }
  }

  /** Reading a letter of the in-pool string back: each letter stands for one kind of status. */
  lemma {:induction false} LettersTellStatuses(status: TransactionStatus)
    ensures status.Validated? <==> status.GetLetter() == 'V'
    ensures status.Broadcasted? <==> status.GetLetter() == 'b'
    ensures status.InBlock? <==> status.GetLetter() == 'B'
    ensures status.NoLongerInBestBlock? <==> status.GetLetter() == 'N'
    ensures status.Finalized? <==> status.GetLetter() == 'F'
    ensures status.Dropped? <==> status.GetLetter() == 'D'
    ensures status.Invalid? <==> status.GetLetter() == 'I'
    ensures status.Errored? <==> status.GetLetter() == 'E'
  {
  }

  /** The letters of the four statuses that end a transaction. */
  const TERMINAL_LETTERS: set<char> := {'F', 'D', 'I', 'E'}

  /** A terminal status is either final or an error, never both, and its letter gives it away. */
  lemma {:induction false} TerminalStatuses(status: TransactionStatus)
    ensures status.IsTerminal() <==> (status.IsFinalized() || status.IsError())
    ensures !(status.IsFinalized() && status.IsError())
    ensures status.IsTerminal() <==> status.GetLetter() in TERMINAL_LETTERS
  {
  }

  /**
   * A transaction together with the way it is sent. `script` is the status stream a fake
   * transaction plays back; a real sink ignores it.
   */
  datatype Task = Task(
    hash: Hash,
    nonce: nat,
    account: AccountMetadata,
    validUntil: Option<nat>,
    watched: bool,
    script: seq<TransactionStatus>)

  function Hashes(tasks: seq<Task>): (hs: seq<Hash>)
    ensures |hs| == |tasks|
    ensures forall i :: 0 <= i < |tasks| ==> hs[i] == tasks[i].hash
  {
    seq(|tasks|, i requires 0 <= i < |tasks| => tasks[i].hash)
  }

  ghost predicate Distinct<T(!new)>(xs: seq<T>) {
    forall i, j :: 0 <= i < j < |xs| ==> xs[i] != xs[j]
  }
}
