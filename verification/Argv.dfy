/** The argument vector that runprogramWithArgs (runprogram.c) builds on the user stack. User memory is the stack
    segment, bytes base to base + |mem|; a copy below base fails. Words are big-endian, as on System/161. */
module Argv {
  import opened VmTypes

  /** A C string without its terminating NUL */
  type CString = s: seq<byte> | forall i | 0 <= i < |s| :: s[i] != 0 witness []

  // ---- Layout ----

  /** ROUNDUP(strlen + 1, 4) */
  function Rounded(n: nat): (r: nat)
    ensures r % 4 == 0 && n < r <= n + 4
  {
    (n + 4) / 4 * 4
  }

  /** The address of string i; strings are placed downwards from the top, the last one first. */
  function StrAddr(args: seq<CString>, top: int, i: nat): int
    requires i <= |args|
    decreases |args| - i
  {
    if i == |args| then top else StrAddr(args, top, i + 1) - Rounded(|args[i]|)
  }

  /** The address of pointer i of the NULL-terminated array below the strings */
  function PtrAddr(args: seq<CString>, top: int, i: int): int {
    StrAddr(args, top, 0) - 4 * (|args| + 1 - i)
  }

  function ArgvAddr(args: seq<CString>, top: int): int {
    PtrAddr(args, top, 0)
  }

  /** The stack pointer at entry: the next lower multiple of 8 */
  function EntryStack(argv: int): (sp: int)
    ensures sp % 8 == 0 && argv - 8 < sp <= argv
  {
    argv - argv % 8
  }

  /** Entry i of addrargs */
  function Pointer(args: seq<CString>, top: int, i: nat): int
    requires i <= |args|
  {
    if i == |args| then 0 else StrAddr(args, top, i)
  }

  /** Strings are aligned, and each ends, NUL included, before the next one begins. */
  lemma {:induction false} StrLayout(args: seq<CString>, top: int, i: nat, j: nat)
    requires i < j <= |args| && top % 4 == 0
    ensures StrAddr(args, top, i) % 4 == 0 && StrAddr(args, top, j) % 4 == 0
    ensures StrAddr(args, top, i) + |args[i]| + 1 <= StrAddr(args, top, j) <= top
  {
    StrAligned(args, top, i);
    StrAligned(args, top, j);
    StrDescends(args, top, i + 1, j);
  }

  lemma {:induction false} StrAligned(args: seq<CString>, top: int, i: nat)
    requires i <= |args| && top % 4 == 0
    ensures StrAddr(args, top, i) % 4 == 0
    decreases |args| - i
  {
    if i < |args| { StrAligned(args, top, i + 1); }
  }

  // ---- Reading it back ----

  /** The bytes at address a are data. */
  predicate Holds(mem: seq<byte>, base: int, a: int, data: seq<byte>) {
    base <= a && a - base + |data| <= |mem| && mem[a - base..a - base + |data|] == data
  }

  /** The value of four big-endian bytes */
  function Value(b0: int, b1: int, b2: int, b3: int): int {
    0x100_0000 * b0 + 0x1_0000 * b1 + 256 * b2 + b3
  }

  /** The word at address a */
  function ReadWord(mem: seq<byte>, base: int, a: int): (n: nat)
    requires base <= a && a - base + 4 <= |mem|
  {
    var o := a - base;
    Value(mem[o], mem[o + 1], mem[o + 2], mem[o + 3])
  }

  /** The bytes from address a to the next NUL, or to the end of memory */
  function ReadString(mem: seq<byte>, base: int, a: int): seq<byte>
    requires base <= a
    decreases |mem| - (a - base)
  {
    if a - base >= |mem| || mem[a - base] == 0 then [] else [mem[a - base]] + ReadString(mem, base, a + 1)
  }

  /** What a program sees that follows argv until the NULL pointer */
  function ReadArgs(mem: seq<byte>, base: int, a: int): seq<seq<byte>>
    requires base <= a
    decreases |mem| - (a - base)
  {
    if a - base + 4 > |mem| then [] else
      var p := ReadWord(mem, base, a);
      if p == 0 then [] else [if base <= p then ReadString(mem, base, p) else []] + ReadArgs(mem, base, a + 4)
  }

  function Word(n: int): (w: seq<byte>)
    requires 0 <= n < 0x1_0000_0000
    ensures |w| == 4
  {
    [n / 0x100_0000, n / 0x1_0000 % 256, n / 256 % 256, n % 256]
  }

  lemma {:induction false} WordReads(mem: seq<byte>, base: int, a: int, n: int)
    requires 0 <= n < 0x1_0000_0000 && Holds(mem, base, a, Word(n))
    ensures ReadWord(mem, base, a) == n
  {
    var w, o := Word(n), a - base;
    assert mem[o..o + 4] == w;
    assert mem[o] == w[0] && mem[o + 1] == w[1] && mem[o + 2] == w[2] && mem[o + 3] == w[3];
    WordValue(n);
  }

  lemma {:induction false} WordValue(n: int)
    requires 0 <= n < 0x1_0000_0000
    ensures var w := Word(n); Value(w[0], w[1], w[2], w[3]) == n
  {
    assert n / 256 / 256 == n / 0x1_0000;
    assert n / 0x1_0000 / 256 == n / 0x100_0000;
  }

  lemma {:induction false} StringReads(mem: seq<byte>, base: int, a: int, s: CString)
    requires Holds(mem, base, a, s + [0])
    ensures ReadString(mem, base, a) == s
    decreases |s|
  {
    var o, d := a - base, s + [0];
    assert mem[o] == mem[o..o + |d|][0] == d[0];
    if s != [] {
      assert mem[o + 1..o + |d|] == mem[o..o + |d|][1..];
      assert d[1..] == s[1..] + [0];
      StringReads(mem, base, a + 1, s[1..]);
    }
  }

  /** String i is in memory, with its NUL. */
  predicate StrOk(mem: seq<byte>, base: int, top: int, args: seq<CString>, i: nat)
    requires i < |args|
  {
    Holds(mem, base, StrAddr(args, top, i), args[i] + [0])
  }

  /** Pointer i is in memory. */
  predicate PtrOk(mem: seq<byte>, base: int, top: int, args: seq<CString>, i: nat)
    requires i <= |args|
  {
    var p := Pointer(args, top, i);
    0 <= p < 0x1_0000_0000 && Holds(mem, base, PtrAddr(args, top, i), Word(p))
  }

  /** All strings, and the pointers from i on, are in memory. */
  ghost predicate LaidOut(mem: seq<byte>, base: int, top: int, args: seq<CString>, i: nat) {
    && (forall j | 0 <= j < |args| :: StrOk(mem, base, top, args, j))
    && (forall j | i <= j <= |args| :: PtrOk(mem, base, top, args, j))
  }

  /** One pointer of the array and the string it points to */
  lemma {:induction false} ArgReads(mem: seq<byte>, base: int, a: int, p: int, s: CString)
    requires 0 < base <= p < 0x1_0000_0000 && Holds(mem, base, a, Word(p)) && Holds(mem, base, p, s + [0])
    ensures ReadArgs(mem, base, a) == [s] + ReadArgs(mem, base, a + 4)
  {
    WordReads(mem, base, a, p);
    StringReads(mem, base, p, s);
  }

  lemma {:induction false} NullReads(mem: seq<byte>, base: int, a: int)
    requires Holds(mem, base, a, Word(0))
    ensures ReadArgs(mem, base, a) == []
  {
    WordReads(mem, base, a, 0);
  }

  /** At address a is a pointer to string str at address ptr. */
  predicate ArgAt(mem: seq<byte>, base: int, a: int, ptr: int, str: CString) {
    base <= ptr < 0x1_0000_0000 && 0 < ptr && Holds(mem, base, a, Word(ptr)) && Holds(mem, base, ptr, str + [0])
  }

  /** From address a on are pointers to the strings, and a NULL. */
  ghost predicate ArgsAt(mem: seq<byte>, base: int, a: int, ptrs: seq<int>, strs: seq<CString>) {
    && |ptrs| == |strs| && Holds(mem, base, a + 4 * |strs|, Word(0))
    && forall j | 0 <= j < |strs| :: ArgAt(mem, base, a + 4 * j, ptrs[j], strs[j])
  }

  lemma {:induction false} TailArgs(mem: seq<byte>, base: int, a: int, ptrs: seq<int>, strs: seq<CString>)
    requires ArgsAt(mem, base, a, ptrs, strs) && strs != []
    ensures ArgAt(mem, base, a, ptrs[0], strs[0]) && ArgsAt(mem, base, a + 4, ptrs[1..], strs[1..])
  {
    assert ArgAt(mem, base, a + 4 * 0, ptrs[0], strs[0]);
    forall j | 0 <= j < |strs| - 1 ensures ArgAt(mem, base, a + 4 + 4 * j, ptrs[1..][j], strs[1..][j]) {
      assert ArgAt(mem, base, a + 4 * (j + 1), ptrs[j + 1], strs[j + 1]);
    }
  }

  lemma {:induction false} PointersRead(mem: seq<byte>, base: int, a: int, ptrs: seq<int>, strs: seq<CString>)
    requires base > 0 && ArgsAt(mem, base, a, ptrs, strs)
    ensures base <= a && ReadArgs(mem, base, a) == strs
    decreases |strs|
  {
    if strs == [] {
      NullReads(mem, base, a);
    } else {
      TailArgs(mem, base, a, ptrs, strs);
      ArgReads(mem, base, a, ptrs[0], strs[0]);
      PointersRead(mem, base, a + 4, ptrs[1..], strs[1..]);
      assert strs == [strs[0]] + strs[1..];
    }
  }

  /** Round trip: following the pointers reads back the arguments. */
  lemma {:induction false} ArgsRead(mem: seq<byte>, base: int, top: int, args: seq<CString>)
    requires base > 0 && LaidOut(mem, base, top, args, 0)
    ensures base <= ArgvAddr(args, top) && ReadArgs(mem, base, ArgvAddr(args, top)) == args
  {
    var a := ArgvAddr(args, top);
    var ptrs := seq(|args|, j requires 0 <= j < |args| => StrAddr(args, top, j));
    forall j | 0 <= j < |args| ensures ArgAt(mem, base, a + 4 * j, ptrs[j], args[j]) {
      assert PtrOk(mem, base, top, args, j) && StrOk(mem, base, top, args, j);
    }
    assert PtrOk(mem, base, top, args, |args|);
    PointersRead(mem, base, a, ptrs, args);
  }

  // ---- Building it ----

  /** Nothing outside n bytes at address b has changed. */
  predicate OnlyAt(mem: seq<byte>, mem': seq<byte>, base: int, b: int, n: nat) {
    |mem'| == |mem| && forall o | 0 <= o < |mem| && !(b - base <= o < b - base + n) :: mem'[o] == mem[o]
  }

  lemma {:induction false} Kept(mem: seq<byte>, mem': seq<byte>, base: int, a: int, data: seq<byte>, b: int, n: nat)
    requires Holds(mem, base, a, data) && OnlyAt(mem, mem', base, b, n) && b + n <= a
    ensures Holds(mem', base, a, data)
  {
    assert forall k | 0 <= k < |data| :: mem'[a - base + k] == mem[a - base + k] == data[k];
  }

  /** copyout and copyoutstr: fail where the destination is not in the segment. */
  method CopyOut(mem: array<byte>, base: int, a: int, data: seq<byte>) returns (ok: bool)
    modifies mem
    ensures ok <==> base <= a && a - base + |data| <= mem.Length
    ensures ok ==> Holds(mem[..], base, a, data) && OnlyAt(old(mem[..]), mem[..], base, a, |data|)
  {
    if a < base || a - base + |data| > mem.Length { return false; }
    for i := 0 to |data|
      invariant forall k | 0 <= k < i :: mem[a - base + k] == data[k]
      invariant forall o | 0 <= o < mem.Length && !(a - base <= o < a - base + |data|) :: mem[o] == old(mem[o])
    {
      mem[a - base + i] := data[i];
    }
    ok := true;
  }

  lemma {:induction false} StrDescends(args: seq<CString>, top: int, i: nat, j: nat)
    requires i <= j <= |args|
    ensures StrAddr(args, top, i) <= StrAddr(args, top, j) <= top
    decreases |args| - i
  {
    if i < j { StrDescends(args, top, i + 1, j); } else if j < |args| { StrDescends(args, top, j + 1, |args|); }
  }

  /** Strings from i on are in memory. */
  ghost predicate StrsOk(mem: seq<byte>, base: int, top: int, args: seq<CString>, i: nat) {
    forall j | i <= j < |args| :: StrOk(mem, base, top, args, j)
  }

  /** A write below the strings leaves them. */
  lemma {:induction false} StrsKept(mem: seq<byte>, mem': seq<byte>, base: int, top: int, args: seq<CString>, i: nat,
      b: int, n: nat)
    requires i <= |args| && StrsOk(mem, base, top, args, i) && OnlyAt(mem, mem', base, b, n)
    requires b + n <= StrAddr(args, top, i)
    ensures StrsOk(mem', base, top, args, i)
  {
    forall j | i <= j < |args| ensures StrOk(mem', base, top, args, j) {
      assert StrOk(mem, base, top, args, j);
      StrDescends(args, top, i, j);
      Kept(mem, mem', base, StrAddr(args, top, j), args[j] + [0], b, n);
    }
  }

  /** One pass of the first loop */
  method PlaceString(mem: array<byte>, base: int, args: seq<CString>, i: nat, from: int) returns (ok: bool,
      stackptr: int)
    requires i < |args| && from == StrAddr(args, base + mem.Length, i + 1)
    requires StrsOk(mem[..], base, base + mem.Length, args, i + 1)
    modifies mem
    ensures stackptr == StrAddr(args, base + mem.Length, i) && (ok <==> base <= stackptr)
    ensures ok ==> StrsOk(mem[..], base, base + mem.Length, args, i)
  {
    ghost var top, before := base + mem.Length, mem[..];
    stackptr := from - Rounded(|args[i]|);
    StrDescends(args, top, i + 1, |args|);
    ok := CopyOut(mem, base, stackptr, args[i] + [0]);
    if ok {
      StrsKept(before, mem[..], base, top, args, i + 1, stackptr, |args[i]| + 1);
      assert StrOk(mem[..], base, top, args, i);
    }
  }

  /** The first loop: the strings, and their addresses in addrargs */
  method PlaceStrings(mem: array<byte>, base: int, args: seq<CString>, addrargs: array<int>) returns (ok: bool,
      stackptr: int)
    requires addrargs.Length == |args| + 1
    modifies mem, addrargs
    ensures ok <==> base <= StrAddr(args, base + mem.Length, 0)
    ensures ok ==> stackptr == StrAddr(args, base + mem.Length, 0) && StrsOk(mem[..], base, base + mem.Length, args, 0)
    ensures ok ==> forall j | 0 <= j < |args| :: addrargs[j] == StrAddr(args, base + mem.Length, j)
  {
    ghost var top := base + mem.Length;
    stackptr := base + mem.Length;
    var i := |args|;
    while i > 0
      invariant 0 <= i <= |args| && base <= stackptr == StrAddr(args, top, i) && StrsOk(mem[..], base, top, args, i)
      invariant forall j | i <= j < |args| :: addrargs[j] == StrAddr(args, top, j)
    {
      i := i - 1;
      StrDescends(args, top, 0, i);
      ok, stackptr := PlaceString(mem, base, args, i, stackptr);
      if !ok { return; }
      addrargs[i] := stackptr;
    }
    ok := true;
  }

  /** A write of pointer i leaves the strings and the later pointers. */
  lemma {:induction false} LaidOutNext(mem: seq<byte>, mem': seq<byte>, base: int, top: int, args: seq<CString>, i: nat)
    requires i <= |args| && LaidOut(mem, base, top, args, i + 1) && PtrOk(mem', base, top, args, i)
    requires OnlyAt(mem, mem', base, PtrAddr(args, top, i), 4)
    ensures LaidOut(mem', base, top, args, i)
  {
    StrsKept(mem, mem', base, top, args, 0, PtrAddr(args, top, i), 4);
    forall j | i < j <= |args| ensures PtrOk(mem', base, top, args, j) {
      assert PtrOk(mem, base, top, args, j);
      Kept(mem, mem', base, PtrAddr(args, top, j), Word(Pointer(args, top, j)), PtrAddr(args, top, i), 4);
    }
  }

  /** Pointers to strings that are in memory are words. */
  lemma {:induction false} PointerFits(mem: seq<byte>, base: int, args: seq<CString>, i: nat)
    requires i <= |args| && 0 < base && base + |mem| <= 0x1_0000_0000 && StrsOk(mem, base, base + |mem|, args, 0)
    ensures 0 <= Pointer(args, base + |mem|, i) < 0x1_0000_0000
  {
    if i < |args| { assert StrOk(mem, base, base + |mem|, args, i); }
  }

  /** The second loop: the pointers, the NULL first */
  method PlacePointers(mem: array<byte>, base: int, args: seq<CString>, addrargs: array<int>, start: int)
      returns (ok: bool, stackptr: int)
    requires addrargs.Length == |args| + 1 && start == StrAddr(args, base + mem.Length, 0) && 0 < base
    requires base + mem.Length <= 0x1_0000_0000
    requires StrsOk(mem[..], base, base + mem.Length, args, 0)
    requires forall j | 0 <= j <= |args| :: addrargs[j] == Pointer(args, base + mem.Length, j)
    modifies mem
    ensures ok <==> base <= ArgvAddr(args, base + mem.Length)
    ensures ok ==> stackptr == ArgvAddr(args, base + mem.Length) && LaidOut(mem[..], base, base + mem.Length, args, 0)
  {
    ghost var top := base + mem.Length;
    stackptr := start;
    StrDescends(args, top, 0, |args|);
    var i := |args| + 1;
    while i > 0
      invariant 0 <= i <= |args| + 1 && stackptr == PtrAddr(args, top, i) && LaidOut(mem[..], base, top, args, i)
      invariant i <= |args| ==> base <= stackptr
      invariant forall j | 0 <= j <= |args| :: addrargs[j] == Pointer(args, top, j)
    {
      i := i - 1;
      stackptr := stackptr - 4;
      ghost var before := mem[..];
      PointerFits(before, base, args, i);
      ok := CopyOut(mem, base, stackptr, Word(addrargs[i]));
      if !ok { return; }
      LaidOutNext(before, mem[..], base, top, args, i);
    }
    ok := true;
  }

  /** The part of runprogramWithArgs that builds argv on a stack segment from base up: it succeeds exactly when
      everything fits, and then a program that follows argv finds the arguments. */
  method BuildArgv(mem: array<byte>, base: int, args: seq<CString>) returns (ok: bool, argv: int, sp: int)
    requires 0 < base && base + mem.Length <= 0x1_0000_0000 && (base + mem.Length) % 8 == 0
    modifies mem
    ensures ok <==> base <= ArgvAddr(args, base + mem.Length)
    ensures ok ==> base <= argv && ReadArgs(mem[..], base, argv) == args
    ensures ok ==> argv == ArgvAddr(args, base + mem.Length) && argv % 4 == 0 && sp % 8 == 0 && argv - 8 < sp <= argv
  {
    var addrargs := new int[|args| + 1];
    argv, sp := 0, 0;
    ArgvAligned(args, base + mem.Length);
    ok, argv := PlaceStrings(mem, base, args, addrargs);
    if !ok { return; }
    addrargs[|args|] := 0;
    ok, argv := PlacePointers(mem, base, args, addrargs, argv);
    if !ok { return; }
    ArgsRead(mem[..], base, base + mem.Length, args);
    sp := EntryStack(argv);
  }

  lemma {:induction false} ArgvAligned(args: seq<CString>, top: int)
    requires top % 8 == 0
    ensures ArgvAddr(args, top) % 4 == 0 && ArgvAddr(args, top) < StrAddr(args, top, 0)
  {
    if |args| > 0 { StrLayout(args, top, 0, |args|); }
  }
}
