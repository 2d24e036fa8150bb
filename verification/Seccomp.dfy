/**
 * The seccomp filter generator (agents/runtime/sandbox_linux.go): a list of system call numbers compiled to
 * classic BPF, and an interpreter for the fragment of classic BPF it uses.
 */
module Seccomp {
  import opened Text

  /** sock_filter */
  datatype Instruction = Instruction(code: nat, jt: nat, jf: nat, k: nat)

  /** What the kernel shows a filter: the call number at offset 0, the audit architecture at offset 4. */
  datatype SyscallData = SyscallData(number: nat, architecture: nat)

  const LOAD_WORD := 0x20 // BPF_LD | BPF_W | BPF_ABS
  const JUMP_EQUAL := 0x15 // BPF_JMP | BPF_JEQ | BPF_K
  const RETURN := 0x06 // BPF_RET | BPF_K

  const KILL_PROCESS := 0x8000_0000
  const ALLOW := 0x7fff_0000
  const ERRNO_EPERM := 0x0005_0001

  const MAX_LENGTH_FIELD := 0x1_0000
  const KERNEL_LIMIT := 4096 // BPF_MAXINSNS

  function Word(data: SyscallData, offset: nat): Option<nat> {
    if offset == 0 then Some(data.number) else if offset == 4 then Some(data.architecture) else None
  }

  /**
   * Running a program from `pc` with accumulator `acc`: the value it returns, or None when it leaves the program,
   * loads from elsewhere or meets an unknown instruction. Jumps only go forward, so every run ends.
   */
  function Run(program: seq<Instruction>, pc: nat, acc: nat, data: SyscallData): Option<nat>
    decreases |program| - pc
  {
    if pc >= |program| then None
    else
      var i := program[pc];
      if i.code == LOAD_WORD then
        var w := Word(data, i.k);
        if w.None? then None else Run(program, pc + 1, w.value, data)
      else if i.code == JUMP_EQUAL then
        Run(program, pc + 1 + if acc == i.k then i.jt else i.jf, acc, data)
      else if i.code == RETURN then Some(i.k)
      else None
  }

  /** What the filter is for. */
  function Verdict(allowed: seq<nat>, architecture: nat, data: SyscallData): nat {
    if data.architecture != architecture then KILL_PROCESS
    else if data.number in allowed then ALLOW
    else ERRNO_EPERM
  }

  function Header(architecture: nat): seq<Instruction> {
    [Instruction(LOAD_WORD, 0, 0, 4), Instruction(JUMP_EQUAL, 1, 0, architecture),
     Instruction(RETURN, 0, 0, KILL_PROCESS), Instruction(LOAD_WORD, 0, 0, 0)]
  }

  function Tests(allowed: seq<nat>): (filters: seq<Instruction>)
    ensures |filters| == 2 * |allowed|
  {
    if allowed == [] then []
    else Tests(allowed[..|allowed| - 1]) +
         [Instruction(JUMP_EQUAL, 0, 1, allowed[|allowed| - 1]), Instruction(RETURN, 0, 0, ALLOW)]
  }

  function Program(allowed: seq<nat>, architecture: nat): seq<Instruction> {
    Header(architecture) + Tests(allowed) + [Instruction(RETURN, 0, 0, ERRNO_EPERM)]
  }

  /** The program construction of installSeccomp. */
  method BuildFilter(allowed: seq<nat>, architecture: nat) returns (filters: seq<Instruction>)
    ensures filters == Program(allowed, architecture) && |filters| == 5 + 2 * |allowed|
    ensures forall data :: Run(filters, 0, 0, data) == Some(Verdict(allowed, architecture, data))
  {
    filters := [Instruction(LOAD_WORD, 0, 0, 4), Instruction(JUMP_EQUAL, 1, 0, architecture),
                Instruction(RETURN, 0, 0, KILL_PROCESS), Instruction(LOAD_WORD, 0, 0, 0)];
    for n := 0 to |allowed|
      invariant filters == Header(architecture) + Tests(allowed[..n])
    {
      filters := filters + [Instruction(JUMP_EQUAL, 0, 1, allowed[n]), Instruction(RETURN, 0, 0, ALLOW)];
      assert allowed[..n + 1][..n] == allowed[..n];
    }
    assert allowed[..|allowed|] == allowed;
    filters := filters + [Instruction(RETURN, 0, 0, ERRNO_EPERM)];
    assert filters == Program(allowed, architecture);
    forall data
      ensures Run(filters, 0, 0, data) == Some(Verdict(allowed, architecture, data))
    {
      FilterIsCorrect(allowed, architecture, data);
      assert Run(Program(allowed, architecture), 0, 0, data) == Some(Verdict(allowed, architecture, data));
    }
  }

  /** The two instructions that test for the n-th number. */
  lemma {:induction false} TestAt(allowed: seq<nat>, n: nat)
    requires n < |allowed|
    ensures Tests(allowed)[2 * n] == Instruction(JUMP_EQUAL, 0, 1, allowed[n])
    ensures Tests(allowed)[2 * n + 1] == Instruction(RETURN, 0, 0, ALLOW)
  {
    if n < |allowed| - 1 {
      TestAt(allowed[..|allowed| - 1], n);
    }
  }

  lemma ProgramAt(allowed: seq<nat>, architecture: nat, n: nat)
    requires n < |allowed|
    ensures |Program(allowed, architecture)| == 5 + 2 * |allowed|
    ensures Program(allowed, architecture)[4 + 2 * n] == Instruction(JUMP_EQUAL, 0, 1, allowed[n])
    ensures Program(allowed, architecture)[4 + 2 * n + 1] == Instruction(RETURN, 0, 0, ALLOW)
  {
    TestAt(allowed, n);
  }

  /** From the n-th test on, the number is compared with the rest of the list. */
  lemma {:induction false} FromTest(allowed: seq<nat>, architecture: nat, n: nat, data: SyscallData)
    requires n <= |allowed|
    ensures Run(Program(allowed, architecture), 4 + 2 * n, data.number, data) ==
            Some(if data.number in allowed[n..] then ALLOW else ERRNO_EPERM)
    decreases |allowed| - n
  {
    var program := Program(allowed, architecture);
    if n < |allowed| {
      ProgramAt(allowed, architecture, n);
      FromTest(allowed, architecture, n + 1, data);
      assert allowed[n..] == [allowed[n]] + allowed[n + 1..];
      if data.number == allowed[n] {
        assert Run(program, 4 + 2 * n, data.number, data) == Run(program, 4 + 2 * n + 1, data.number, data);
      } else {
        assert Run(program, 4 + 2 * n, data.number, data) == Run(program, 4 + 2 * (n + 1), data.number, data);
      }
    } else {
      assert program[4 + 2 * n] == Instruction(RETURN, 0, 0, ERRNO_EPERM);
    }
  }

  /** For every list, architecture and system call the program returns the verdict, from any initial accumulator. */
  lemma FilterIsCorrect(allowed: seq<nat>, architecture: nat, data: SyscallData)
    ensures forall acc: nat :: Run(Program(allowed, architecture), 0, acc, data) == Some(Verdict(allowed, architecture, data))
  {
    var program := Program(allowed, architecture);
    assert program[0] == Header(architecture)[0] && program[1] == Header(architecture)[1];
    assert program[2] == Header(architecture)[2] && program[3] == Header(architecture)[3];
    FromTest(allowed, architecture, 0, data);
    assert allowed[0..] == allowed;
    forall acc: nat
      ensures Run(program, 0, acc, data) == Some(Verdict(allowed, architecture, data))
    {
      assert Run(program, 0, acc, data) == Run(program, 1, data.architecture, data);
      if data.architecture == architecture {
        assert Run(program, 1, data.architecture, data) == Run(program, 3, data.architecture, data);
        assert Run(program, 3, data.architecture, data) == Run(program, 4, data.number, data);
      } else {
        assert Run(program, 1, data.architecture, data) == Run(program, 2, data.architecture, data);
      }
    }
  }

  /** The 16-bit length handed to the kernel is the program's length exactly for lists of at most 32765 numbers. */
  lemma LengthField(allowed: seq<nat>, architecture: nat)
    ensures |Program(allowed, architecture)| % MAX_LENGTH_FIELD == |Program(allowed, architecture)| <==> |allowed| <= 32765
    ensures |Program(allowed, architecture)| <= KERNEL_LIMIT <==> |allowed| <= 2045
  {
    assert |Program(allowed, architecture)| == 5 + 2 * |allowed|;
  }
}
