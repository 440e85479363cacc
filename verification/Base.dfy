// Types shared by every part of the model.
module Base {
  type Byte = b: int | 0 <= b < 256

  // A 32-byte key is read as the big-endian number of its bytes (module Bytes proves
  // that this keeps exactly the order of key_cmp).
  const KEY_LIMIT: int := 0x1_0000000000000000_0000000000000000_0000000000000000_0000000000000000

  const U64_LIMIT: int := 0x1_0000000000000000

  type U64 = x: int | 0 <= x < U64_LIMIT

  type Key = k: int | 0 <= k < KEY_LIMIT

  type Val = seq<Byte>

  datatype Entry = Entry(key: Key, val: Val)

  datatype Option<+T> = None | Some(value: T)

  // The error returns of the engine, and below them those of the order book.
  datatype Error =
    | NodeTooSmall          // 110: the account holds no node
    | BadNode               // 101
    | BadPath               // 105
    | NeedSplitSlot         // 102
    | DuplicateKey          // 103
    | KeyNotFound           // 104
    | InitTwice             // 106
    | TreeUninit            // 112
    | NotEmpty              // 116
    | BadIxData             // 111
    | LeafNotAdjacent       // 119
    | MultiLeafOverflow     // 120
    | NotEnoughAccounts
    | WrongOwner            // the account does not belong to the program
    | InvalidArgument
    | IllegalOwner
    | ArithmeticOverflow
    | MissingSignature
    | TransferRefused       // by the token program

  datatype Result<+T> = Ok(value: T) | Err(error: Error) {
    predicate IsFailure() {
      Err?
    }

    function PropagateFailure<U>(): Result<U>
      requires Err?
    {
      Err(error)
    }

    function Extract(): T
      requires Ok?
    {
      value
    }
  }

  lemma Reassoc<T>(a: seq<T>, b: seq<T>, c: seq<T>)
    ensures a + (b + c) == a + b + c
  {
  }

  function Min(a: nat, b: nat): nat {
    if a < b then a else b
  }
}
