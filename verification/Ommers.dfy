/** Ommer validation: `is_kin` and the ommer part of `pre_validate_block`
    (core/silkworm/chain/validity.cpp), section 11.1 of the Yellow Paper. */
module Ommers {
  import opened Basics
  import opened World
  import opened Codecs

  type Hash = Bytes32
  datatype Key = Key(number: nat, hash: Hash)

  /** The stored headers, and the ommers of the stored bodies. */
  datatype Store = Store(headers: map<Key, BlockHeader>, ommers: map<Key, seq<BlockHeader>>)

  const GENERATIONS: nat := 6

  function GetParent(s: Store, h: BlockHeader): (p: Option<BlockHeader>)
  {
    Get(s.headers, Key((h.number - 1) % TWO_64, h.parentHash))
  }

  /** Headers are stored under their own numbers, and ommers are older than the blocks that name them. */
  ghost predicate Keyed(s: Store)
  {
    && (forall key <- s.headers :: s.headers[key].number == key.number < TWO_64 - 1)
    && (forall key <- s.ommers, o <- s.ommers[key] :: o.number < key.number)
  }

  // --- the walk ---

  datatype Walk = Walk(kin: bool, oldOmmers: seq<BlockHeader>)

  function IsKin(s: Store, branch: BlockHeader, main: BlockHeader, mainHash: Hash, n: nat): (w: Walk)
    decreases n
  {
    var key := Key(main.number, mainHash);
    if n == 0 || branch == main || key !in s.ommers then Walk(false, [])
    else
      var parent := GetParent(s, main);
      if parent.None? then Walk(false, s.ommers[key])
      else if GetParent(s, branch) == parent then Walk(true, s.ommers[key])
      else
        var w := IsKin(s, branch, parent.value, main.parentHash, n - 1);
        w.(oldOmmers := s.ommers[key] + w.oldOmmers)
  }

  // --- what the walk decides ---

  datatype Mainline = Mainline(header: BlockHeader, hash: Hash)

  /** The block `d` generations before `main`. */
  function Ancestor(s: Store, main: Mainline, d: nat): (r: Option<Mainline>)
    decreases d
  {
    if d == 0 then Some(main)
    else match GetParent(s, main.header)
      case None => None
      case Some(p) => Ancestor(s, Mainline(p, main.header.parentHash), d - 1)
  }

  /** The `d`-th ancestor is stored and is not the branch block itself. */
  predicate Passed(s: Store, branch: BlockHeader, main: Mainline, d: nat)
  {
    match Ancestor(s, main, d)
    case Some(a) => a.header != branch && Key(a.header.number, a.hash) in s.ommers
    case None => false
  }

  predicate Siblings(s: Store, branch: BlockHeader, main: Mainline, d: nat)
  {
    match Ancestor(s, main, d)
    case Some(a) => GetParent(s, a.header).Some? && GetParent(s, branch) == GetParent(s, a.header)
    case None => false
  }

  ghost predicate KinAt(s: Store, branch: BlockHeader, main: Mainline, d: nat)
  {
    Siblings(s, branch, main, d) && forall e | 0 <= e <= d :: Passed(s, branch, main, e)
  }

  function OmmersAt(s: Store, main: Mainline, d: nat): (r: seq<BlockHeader>)
  {
    match Ancestor(s, main, d)
    case Some(a) => if Key(a.header.number, a.hash) in s.ommers then s.ommers[Key(a.header.number, a.hash)] else []
    case None => []
  }

  lemma AncestorNext(s: Store, main: Mainline, d: nat)
    requires GetParent(s, main.header).Some?
    ensures Ancestor(s, main, d + 1) == Ancestor(s, Mainline(GetParent(s, main.header).value, main.header.parentHash), d)
  {
  }

  lemma {:induction false} KinFound(s: Store, branch: BlockHeader, main: Mainline, n: nat) returns (d: nat)
    requires IsKin(s, branch, main.header, main.hash, n).kin
    ensures d < n && KinAt(s, branch, main, d)
    ensures forall e, o | 0 <= e <= d && o in OmmersAt(s, main, e) :: o in IsKin(s, branch, main.header, main.hash, n).oldOmmers
    decreases n
  {
    var parent := GetParent(s, main.header);
    if GetParent(s, branch) == parent {
      d := 0;
    } else {
      var next := Mainline(parent.value, main.header.parentHash);
      var e := KinFound(s, branch, next, n - 1);
      d := e + 1;
      forall i | 0 <= i <= d
        ensures Passed(s, branch, main, i)
        ensures forall o | o in OmmersAt(s, main, i) :: o in IsKin(s, branch, main.header, main.hash, n).oldOmmers
      {
        if i > 0 {
          AncestorNext(s, main, i - 1);
          assert Passed(s, branch, next, i - 1);
          assert OmmersAt(s, main, i) == OmmersAt(s, next, i - 1);
        }
      }
      AncestorNext(s, main, e);
    }
  }

  lemma {:induction false} KinComplete(s: Store, branch: BlockHeader, main: Mainline, n: nat, d: nat)
    requires d < n && KinAt(s, branch, main, d)
    ensures IsKin(s, branch, main.header, main.hash, n).kin
    decreases n
  {
    assert Passed(s, branch, main, 0);
    if d > 0 {
      var parent := GetParent(s, main.header);
      assert parent.Some? by { assert Passed(s, branch, main, d); }
      var next := Mainline(parent.value, main.header.parentHash);
      if GetParent(s, branch) != parent {
        AncestorNext(s, main, d - 1);
        forall i | 0 <= i <= d - 1
          ensures Passed(s, branch, next, i)
        {
          AncestorNext(s, main, i);
          assert Passed(s, branch, main, i + 1);
        }
        KinComplete(s, branch, next, n - 1, d - 1);
      }
    }
  }

  /** A header is kin exactly if it shares its parent with one of the last `n` blocks of the chain,
      that block and all later ones being stored and different from it. */
  lemma KinExact(s: Store, branch: BlockHeader, main: Mainline, n: nat)
    ensures IsKin(s, branch, main.header, main.hash, n).kin <==> exists d :: 0 <= d < n && KinAt(s, branch, main, d)
  {
    if IsKin(s, branch, main.header, main.hash, n).kin {
      var d := KinFound(s, branch, main, n);
    }
    forall d | 0 <= d < n && KinAt(s, branch, main, d)
      ensures IsKin(s, branch, main.header, main.hash, n).kin
    {
      KinComplete(s, branch, main, n, d);
    }
  }

  // --- numbers ---

  lemma {:induction false} AncestorNumber(s: Store, main: Mainline, d: nat)
    requires Keyed(s) && main.header.number < TWO_64 - 1 && Ancestor(s, main, d).Some?
    ensures Ancestor(s, main, d).value.header.number == main.header.number - d
    decreases d
  {
    if d > 0 {
      ParentNumber(s, main.header);
      AncestorNumber(s, Mainline(GetParent(s, main.header).value, main.header.parentHash), d - 1);
    }
  }

  lemma ParentNumber(s: Store, h: BlockHeader)
    requires Keyed(s) && h.number < TWO_64 && GetParent(s, h).Some?
    ensures h.number > 0 && GetParent(s, h).value.number == h.number - 1
  {
  }

  /** Kin of generation `d` have the number of the `d`-th ancestor, and no ancestor, however
      old, already names them if the walked ones do not. */
  lemma KinNumber(s: Store, branch: BlockHeader, main: Mainline, d: nat)
    requires Keyed(s) && main.header.number < TWO_64 - 1 && branch.number < TWO_64
    requires KinAt(s, branch, main, d)
    ensures branch.number == main.header.number - d
    ensures forall e, o | e > d && o in OmmersAt(s, main, e) :: o.number < branch.number
  {
    AncestorNumber(s, main, d);
    ParentNumber(s, branch);
    ParentNumber(s, Ancestor(s, main, d).value.header);
    forall e, o | e > d && o in OmmersAt(s, main, e)
      ensures o.number < branch.number
    {
      AncestorNumber(s, main, e);
    }
  }

  // --- validation ---

  datatype Verdict =
    | Ok | GasAboveLimit | InvalidGasLimit | ExtraDataTooLong | UnknownParent | InvalidTimestamp
    | TooManyOmmers | DuplicateOmmer | InvalidOmmerHeader | NotAnOmmer | Other(code: nat)

  /** `rest` stands for the checks of difficulty, extra data of the DAO fork, and seal. */
  function ValidateHeader(s: Store, rest: (BlockHeader, BlockHeader) -> Verdict, h: BlockHeader): (v: Verdict)
  {
    if h.gasUsed > h.gasLimit then GasAboveLimit
    else if h.gasLimit < 5000 then InvalidGasLimit
    else if h.gasLimit > 0x7fff_ffff_ffff_ffff then InvalidGasLimit
    else if |h.extraData| > 32 then ExtraDataTooLong
    else
      match GetParent(s, h)
      case None => UnknownParent
      case Some(parent) =>
        if h.timestamp <= parent.timestamp then InvalidTimestamp
        else
          var delta := if h.gasLimit > parent.gasLimit then h.gasLimit - parent.gasLimit else parent.gasLimit - h.gasLimit;
          if delta >= parent.gasLimit / 1024 then InvalidGasLimit else rest(h, parent)
  }

  /** What makes an ommer acceptable in a child of `main`. */
  ghost predicate Acceptable(s: Store, rest: (BlockHeader, BlockHeader) -> Verdict, main: Mainline, o: BlockHeader)
  {
    && ValidateHeader(s, rest, o) == Ok
    && (exists d :: 0 <= d < GENERATIONS && KinAt(s, o, main, d))
    && o !in IsKin(s, o, main.header, main.hash, GENERATIONS).oldOmmers
  }

  /** A header is accepted exactly within the limits of section 4.3.4 of the Yellow Paper and of EIP-1985. */
  lemma HeaderAccepted(s: Store, rest: (BlockHeader, BlockHeader) -> Verdict, h: BlockHeader)
    ensures ValidateHeader(s, rest, h) == Ok <==>
      && h.gasUsed <= h.gasLimit && 5000 <= h.gasLimit < 0x8000_0000_0000_0000 && |h.extraData| <= 32
      && GetParent(s, h).Some?
      && var parent := GetParent(s, h).value;
         var step := parent.gasLimit / 1024;
         && parent.timestamp < h.timestamp && parent.gasLimit - step < h.gasLimit < parent.gasLimit + step && rest(h, parent) == Ok
  {
  }

  /** What is wrong with an ommer. */
  ghost function Fault(s: Store, rest: (BlockHeader, BlockHeader) -> Verdict, main: Mainline, o: BlockHeader): (v: Verdict)
    ensures v == Ok <==> Acceptable(s, rest, main, o)
  {
    if ValidateHeader(s, rest, o) != Ok then InvalidOmmerHeader
    else if !exists d :: 0 <= d < GENERATIONS && KinAt(s, o, main, d) then NotAnOmmer
    else if o in IsKin(s, o, main.header, main.hash, GENERATIONS).oldOmmers then DuplicateOmmer
    else Ok
  }

  /** The fault of the first ommer that has one. */
  ghost function FirstFault(s: Store, rest: (BlockHeader, BlockHeader) -> Verdict, main: Mainline, ommers: seq<BlockHeader>): (v: Verdict)
    ensures v == Ok <==> forall o <- ommers :: Acceptable(s, rest, main, o)
  {
    if ommers == [] then Ok
    else
      assert ommers == [ommers[0]] + ommers[1..];
      var v := Fault(s, rest, main, ommers[0]);
      if v != Ok then v else FirstFault(s, rest, main, ommers[1..])
  }

  /** The ommer part of `pre_validate_block`, for a block whose parent is `main`. */
  method ValidateOmmers(s: Store, rest: (BlockHeader, BlockHeader) -> Verdict, main: Mainline, ommers: seq<BlockHeader>)
    returns (v: Verdict)
    ensures v == Ok <==>
      && |ommers| <= 2 && (|ommers| == 2 ==> ommers[0] != ommers[1])
      && forall o <- ommers :: Acceptable(s, rest, main, o)
    ensures v ==
      if |ommers| > 2 then TooManyOmmers
      else if |ommers| == 2 && ommers[0] == ommers[1] then DuplicateOmmer
      else FirstFault(s, rest, main, ommers)
  {
    hide KinAt, IsKin, ValidateHeader;
    if |ommers| > 2 {
      return TooManyOmmers;
    }
    if |ommers| == 2 && ommers[0] == ommers[1] {
      return DuplicateOmmer;
    }
    for i := 0 to |ommers|
      invariant FirstFault(s, rest, main, ommers) == FirstFault(s, rest, main, ommers[i..])
    {
      var ommer := ommers[i];
      assert ommers[i..][0] == ommer && ommers[i..][1..] == ommers[i + 1..];
      if ValidateHeader(s, rest, ommer) != Ok {
        return InvalidOmmerHeader;
      }
      KinExact(s, ommer, main, GENERATIONS);
      var w := IsKin(s, ommer, main.header, main.hash, GENERATIONS);
      if !w.kin {
        return NotAnOmmer;
      }
      for j := 0 to |w.oldOmmers|
        invariant forall k | 0 <= k < j :: w.oldOmmers[k] != ommer
      {
        if w.oldOmmers[j] == ommer {
          return DuplicateOmmer;
        }
      }
    }
    return Ok;
  }

  /** An accepted ommer is one to six generations old, and no ancestor of the block names it. */
  lemma AcceptedOmmer(s: Store, rest: (BlockHeader, BlockHeader) -> Verdict, main: Mainline, o: BlockHeader, number: nat)
    requires Keyed(s) && main.header.number < TWO_64 - 1 && o.number < TWO_64
    requires number == main.header.number + 1 && Acceptable(s, rest, main, o)
    ensures number - 6 <= o.number <= number - 1
    ensures 2 <= 8 + o.number - number <= 7
    ensures forall e: nat :: o !in OmmersAt(s, main, e)
  {
    hide ValidateHeader;
    KinExact(s, o, main, GENERATIONS);
    var d := KinFound(s, o, main, GENERATIONS);
    KinNumber(s, o, main, d);
  }
}
