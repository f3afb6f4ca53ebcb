/** The length quota every write and truncate of the private SQLite files passes through. */
module VfsQuota {
  import opened Bytes
  import opened VfsNames

  datatype Limits = Limits(database: nat, wal: nat, rollback: nat, shm: nat, total: nat)

  datatype Code = Ok | Full | IoError

  /** The four logical lengths; an absent file has length zero. */
  datatype Lengths = Lengths(database: nat, wal: nat, rollback: nat, shm: nat)

  function Limit(limits: Limits, name: Name): nat {
    match name
    case Database => limits.database
    case Wal => limits.wal
    case Rollback => limits.rollback
    case Shm => limits.shm
  }

  function Length(lengths: Lengths, name: Name): nat {
    match name
    case Database => lengths.database
    case Wal => lengths.wal
    case Rollback => lengths.rollback
    case Shm => lengths.shm
  }

  function SetLength(lengths: Lengths, name: Name, n: nat): Lengths {
    match name
    case Database => lengths.(database := n)
    case Wal => lengths.(wal := n)
    case Rollback => lengths.(rollback := n)
    case Shm => lengths.(shm := n)
  }

  function Sum(lengths: Lengths): nat {
    lengths.database + lengths.wal + lengths.rollback + lengths.shm
  }

  function Max(a: nat, b: nat): nat {
    if a < b then b else a
  }

  /** `FileLimits::validate`. */
  predicate Valid(limits: Limits) {
    && 0 < limits.database < TWO64 / 2 && 0 < limits.wal < TWO64 / 2 && 0 < limits.rollback < TWO64 / 2
    && 0 < limits.shm < TWO64 / 2 && 0 < limits.total < TWO64 / 2
  }

  predicate Within(limits: Limits, lengths: Lengths) {
    && lengths.database <= limits.database && lengths.wal <= limits.wal
    && lengths.rollback <= limits.rollback && lengths.shm <= limits.shm
    && Sum(lengths) <= limits.total
  }

  /** The order in which `growth` visits the files. */
  function NameAt(k: nat): Name
    requires k < 4
  {
    if k == 0 then Database else if k == 1 then Wal else if k == 2 then Rollback else Shm
  }

  function SumFirst(lengths: Lengths, k: nat): nat
    requires k <= 4
  {
    if k == 0 then 0 else SumFirst(lengths, k - 1) + Length(lengths, NameAt(k - 1))
  }

  lemma SumFirstIsSum(lengths: Lengths)
    ensures SumFirst(lengths, 4) == Sum(lengths)
  {
    assert SumFirst(lengths, 1) == lengths.database;
    assert SumFirst(lengths, 2) == lengths.database + lengths.wal;
    assert SumFirst(lengths, 3) == lengths.database + lengths.wal + lengths.rollback;
  }

  lemma {:induction false} SumFirstBelow(lengths: Lengths, k: nat)
    requires k <= 4
    ensures SumFirst(lengths, k) <= Sum(lengths)
    decreases 4 - k
  {
    if k == 4 {
      SumFirstIsSum(lengths);
    } else {
      SumFirstBelow(lengths, k + 1);
    }
  }

  predicate FirstFit(limits: Limits, lengths: Lengths, k: nat)
    requires k <= 4
  {
    k == 0 || (FirstFit(limits, lengths, k - 1) && Length(lengths, NameAt(k - 1)) <= Limit(limits, NameAt(k - 1)))
  }

  lemma {:induction false} FirstFitAll(limits: Limits, lengths: Lengths, k: nat)
    requires k <= 4 && FirstFit(limits, lengths, 4)
    ensures FirstFit(limits, lengths, k)
    decreases 4 - k
  {
    if k < 4 {
      FirstFitAll(limits, lengths, k + 1);
    }
  }

  lemma WithinIsFit(limits: Limits, lengths: Lengths)
    ensures Within(limits, lengths) <==> FirstFit(limits, lengths, 4) && SumFirst(lengths, 4) <= limits.total
  {
    SumFirstIsSum(lengths);
    assert FirstFit(limits, lengths, 1) <==> lengths.database <= limits.database;
    assert FirstFit(limits, lengths, 2) <==> FirstFit(limits, lengths, 1) && lengths.wal <= limits.wal;
    assert FirstFit(limits, lengths, 3) <==> FirstFit(limits, lengths, 2) && lengths.rollback <= limits.rollback;
  }

  /** What `growth` decides about. */
  function Grown(lengths: Lengths, name: Name, end: nat): Lengths {
    SetLength(lengths, name, Max(Length(lengths, name), end))
  }

  lemma GrownLength(lengths: Lengths, name: Name, end: nat, item: Name)
    ensures Length(Grown(lengths, name, end), item) == if item == name then Max(Length(lengths, item), end) else Length(lengths, item)
  {
  }

  /** A file over its own limit, or a sum past 64 bits, already decides. */
  lemma NotWithin(limits: Limits, lengths: Lengths, k: nat)
    requires Valid(limits) && k <= 4 && (!FirstFit(limits, lengths, k) || SumFirst(lengths, k) >= TWO64)
    ensures !Within(limits, lengths)
  {
    WithinIsFit(limits, lengths);
    SumFirstBelow(lengths, k);
    SumFirstIsSum(lengths);
    if FirstFit(limits, lengths, 4) {
      FirstFitAll(limits, lengths, k);
    }
  }

  datatype Request = Write(name: Name, offset: nat, amount: nat) | Truncate(name: Name, size: nat)

  /** The length a request may reach. */
  function End(request: Request): nat {
    match request
    case Write(_, offset, amount) => offset + amount
    case Truncate(_, size) => size
  }

  /** What one write call to the file system answers; it never takes more than it was offered. */
  datatype Answer = Wrote(bytes: nat) | NoSpace | Failed

  function Taken(answer: Answer, offered: nat): nat {
    if !answer.Wrote? then 0 else if answer.bytes < offered then answer.bytes else offered
  }

  /** The namespace's files; `lengths` is what storage reports. */
  class Namespace {
    const limits: Limits
    var lengths: Lengths

    constructor (limits: Limits, lengths: Lengths)
      ensures this.limits == limits && this.lengths == lengths
    {
      this.limits, this.lengths := limits, lengths;
    }

    /** `growth`: would every file and the sum stay within limits if `name` reached `end`?
        `readable` says of which files storage can report the length. */
    method Growth(name: Name, end: nat, readable: Name -> bool) returns (code: Code)
      requires Valid(limits)
      ensures code.Ok? ==> Within(limits, Grown(lengths, name, end))
      ensures code.Full? ==> !Within(limits, Grown(lengths, name, end))
      ensures code.IoError? ==> exists item :: !readable(item)
    {
      ghost var goal := Grown(lengths, name, end);
      if end > Limit(limits, name) {
        return Full;
      }
      var total, k := 0, 0;
      while k < 4
        invariant 0 <= k <= 4 && total == SumFirst(goal, k) && FirstFit(limits, goal, k)
      {
        var item := NameAt(k);
        if !readable(item) {
          return IoError;
        }
        var bytes := Length(lengths, item);
        if item == name {
          bytes := Max(bytes, end);
        }
        GrownLength(lengths, name, end, item);
        k := k + 1;
        if bytes > Limit(limits, item) {
          NotWithin(limits, goal, k);
          return Full;
        }
        if total + bytes >= TWO64 {
          NotWithin(limits, goal, k);
          return Full;
        }
        total := total + bytes;
      }
      WithinIsFit(limits, goal);
      return if total > limits.total then Full else Ok;
    }

    /** The bytes, in as many pieces as the file system takes them: `answers(n)` is what the n-th
        call comes to. A full disk, a failure, or a call that takes nothing ends the loop. */
    method WritePieces(name: Name, offset: nat, amount: nat, answers: nat -> Answer) returns (code: Code, ghost written: nat)
      modifies this`lengths
      ensures written <= amount && (code.Ok? <==> written == amount)
      ensures lengths == if written == 0 then old(lengths) else Grown(old(lengths), name, offset + written)
      ensures code.Full? ==> exists n :: answers(n).NoSpace?
      ensures code.IoError? ==> exists n :: answers(n).Failed? || answers(n) == Wrote(0)
    {
      var used, n := 0, 0;
      while used < amount
        invariant 0 <= used <= amount
        invariant lengths == if used == 0 then old(lengths) else Grown(old(lengths), name, offset + used)
        decreases amount - used
      {
        var wrote := Taken(answers(n), amount - used);
        if answers(n).NoSpace? {
          return Full, used;
        }
        if wrote == 0 {
          return IoError, used;
        }
        used := used + wrote;
        lengths := Grown(lengths, name, offset + used);
        n := n + 1;
      }
      return Ok, used;
    }

    /** `write`: the quota first, then the bytes. */
    method Write(name: Name, offset: nat, amount: nat, readable: Name -> bool, answers: nat -> Answer)
      returns (code: Code, ghost written: nat)
      requires Valid(limits)
      modifies this`lengths
      ensures written <= amount && (code.Ok? <==> written == amount)
      ensures lengths == old(if written == 0 then lengths else Grown(lengths, name, offset + written))
      ensures lengths == old(lengths) || Within(limits, lengths)
      ensures code.Full? ==> !Within(limits, Grown(old(lengths), name, offset + amount)) || exists n :: answers(n).NoSpace?
      ensures code.IoError? ==> (exists item :: !readable(item)) || exists n :: answers(n).Failed? || answers(n) == Wrote(0)
    {
      if amount == 0 {
        return Ok, 0;
      }
      code := Growth(name, offset + amount, readable);
      if !code.Ok? {
        return code, 0;
      }
      code, written := WritePieces(name, offset, amount, answers);
    }

    /** `truncate`. */
    method Truncate(name: Name, size: nat, readable: Name -> bool, works: bool) returns (code: Code)
      requires Valid(limits)
      modifies this`lengths
      ensures lengths == if code.Ok? then SetLength(old(lengths), name, size) else old(lengths)
      ensures lengths == old(lengths) || Within(limits, lengths)
    {
      code := Growth(name, size, readable);
      if !code.Ok? {
        return;
      }
      if !works {
        return IoError;
      }
      lengths := SetLength(lengths, name, size);
    }

    /** Any sequence of requests, whatever fails on the way. */
    method Serve(requests: seq<Request>, readable: nat -> Name -> bool, answers: nat -> nat -> Answer, works: nat -> bool)
      requires Valid(limits) && Within(limits, lengths)
      modifies this`lengths
      ensures Within(limits, lengths)
    {
      for k := 0 to |requests|
        invariant Within(limits, lengths)
      {
        match requests[k] {
          case Write(name, offset, amount) =>
            var code, written := Write(name, offset, amount, readable(k), answers(k));
          case Truncate(name, size) =>
            var code := Truncate(name, size, readable(k), works(k));
        }
      }
    }
  }
}
