/** How a node is told its cpus (create/nodefs.py): the kernel's cpumap and cpulist texts, and the
    cpuN links, which all name the same cpus. */
module NodeFs {
  import opened Basics
  import opened Numbers
  import opened Text
  import opened ClusterModel
  import Units

  const WORD: nat := 0x1_0000_0000

  function Pow2(n: nat): (p: nat)
    ensures p > 0
  {
    if n == 0 then 1 else 2 * Pow2(n - 1)
  }

  lemma {:induction false} Pow2Adds(a: nat, b: nat)
    ensures Pow2(a + b) == Pow2(a) * Pow2(b)
  {
    if a > 0 {
      Pow2Adds(a - 1, b);
      assert Pow2(a + b) == 2 * Pow2(a - 1 + b);
      assert 2 * (Pow2(a - 1) * Pow2(b)) == (2 * Pow2(a - 1)) * Pow2(b);
    }
  }

  lemma Pow2Word()
    ensures Pow2(32) == WORD
  {
    assert Pow2(8) == 256;
    Pow2Adds(8, 8);
    Pow2Adds(16, 16);
  }

  /** The 32-bit words of the mask of that many cpus, lowest first. */
  function Words(cpus: nat): seq<nat> {
    if cpus <= 32 then [Pow2(cpus) - 1] else [WORD - 1] + Words(cpus - 32)
  }

  function Hex(words: seq<nat>): seq<string> { Map(words, (w: nat) => Print(w, 16)) }

  function Reverse<T>(s: seq<T>): (r: seq<T>)
    ensures |r| == |s|
    ensures forall i :: 0 <= i < |s| ==> r[i] == s[|s| - 1 - i]
  {
    if s == [] then [] else Reverse(s[1..]) + [s[0]]
  }

  function CpuMapText(cpus: nat): string { Join(Reverse(Hex(Words(cpus))), ',') }

  lemma LowWord(cpus: nat)
    ensures cpus < 32 ==> (Pow2(cpus) - 1) % WORD == Pow2(cpus) - 1 && (Pow2(cpus) - 1) / WORD == 0
    ensures cpus >= 32 ==> (Pow2(cpus) - 1) % WORD == WORD - 1 && (Pow2(cpus) - 1) / WORD == Pow2(cpus - 32) - 1
  {
    Pow2Word();
    if cpus < 32 {
      Pow2Adds(cpus, 32 - cpus);
      Grows(Pow2(cpus), Pow2(32 - cpus));
      hide Pow2;
    } else {
      Pow2Adds(32, cpus - 32);
      hide Pow2;
      ShiftOut(Pow2(cpus - 32));
    }
  }

  lemma ShiftOut(q: nat)
    requires q > 0
    ensures (WORD * q - 1) % WORD == WORD - 1 && (WORD * q - 1) / WORD == q - 1
  {
  }

  lemma Grows(a: nat, b: nat)
    requires b > 0
    ensures a <= a * b
  {
    assert a * b == a * (b - 1) + a;
  }

  /** _cpumap: the mask shifted out word by word, then printed from the top. */
  method CpuMap(cpus: nat) returns (text: string)
    ensures text == CpuMapText(cpus)
  {
    var mask := Pow2(cpus) - 1;
    var words: seq<string> := [];
    ghost var left := cpus;
    while true
      invariant mask == Pow2(left) - 1
      invariant words + Hex(Words(left)) == Hex(Words(cpus))
      decreases left
    {
      LowWord(left);
      Pow2Word();
      ghost var now := Print(mask % WORD, 16);
      words := words + [Print(mask % WORD, 16)];
      mask := mask / WORD;
      if mask == 0 {
        LastWord(left);
        break;
      }
      NextWord(left);
      Associative(words[..|words| - 1], [now], Hex(Words(left - 32)));
      left := left - 32;
    }
    text := Join(Reverse(words), ',');
  }

  lemma LastWord(left: nat)
    requires (Pow2(left) - 1) / WORD == 0
    ensures Hex(Words(left)) == [Print((Pow2(left) - 1) % WORD, 16)]
  {
    LowWord(left);
    Pow2Word();
  }

  lemma NextWord(left: nat)
    requires (Pow2(left) - 1) / WORD != 0
    ensures left > 32 && Hex(Words(left)) == [Print((Pow2(left) - 1) % WORD, 16)] + Hex(Words(left - 32))
  {
    LowWord(left);
    assert Pow2(0) == 1;
  }

  // ---- what the text says

  lemma {:induction false} WordsShape(cpus: nat)
    ensures |Words(cpus)| == if cpus == 0 then 1 else (cpus + 31) / 32
    ensures forall i :: 0 <= i < |Words(cpus)| - 1 ==> Words(cpus)[i] == WORD - 1
  {
    if cpus > 32 {
      WordsShape(cpus - 32);
    }
  }

  /** One 32-bit word for every started 32 cpus, and every word after the first is ffffffff. */
  lemma CpuMapShape(cpus: nat)
    requires cpus > 0
    ensures var words := Split(CpuMapText(cpus), ',');
            |words| == (cpus + 31) / 32 && forall i :: 0 < i < |words| ==> words[i] == "ffffffff"
  {
    CpuMapSplits(cpus);
    WordsShape(cpus);
    AllOnes();
  }

  lemma AllOnes()
    ensures Print(WORD - 1, 16) == "ffffffff"
  {
    assert Print(0xF, 16) == "f";
    assert Print(0xFF, 16) == "ff";
    assert Print(0xFFF, 16) == "fff";
    assert Print(0xFFFF, 16) == "ffff";
    assert Print(0xF_FFFF, 16) == "fffff";
    assert Print(0xFF_FFFF, 16) == "ffffff";
    assert Print(0xFFF_FFFF, 16) == "fffffff";
  }

  lemma NoComma(n: nat)
    ensures ',' !in Print(n, 16)
  {
    PrintShape(n, 16);
    hide Print;
    assert ',' !in DIGITS[..16];
  }

  lemma CpuMapSplits(cpus: nat)
    ensures Split(CpuMapText(cpus), ',') == Reverse(Hex(Words(cpus)))
  {
    hide Print;
    hide Split;
    hide Join;
    WordsShape(cpus);
    hide Words;
    var words := Reverse(Hex(Words(cpus)));
    forall w | w in words
      ensures ',' !in w
    {
      var i :| 0 <= i < |words| && words[i] == w;
      NoComma(Words(cpus)[|words| - 1 - i]);
    }
    SplitJoin(words, ',');
  }

  /** Words from the top, each worth 2^32 of the next. */
  function ReadWords(words: seq<string>): Option<nat> {
    if words == [] then Some(0)
    else
      var n := |words| - 1;
      var high, low := ReadWords(words[..n]), Read(words[n], 16);
      if high.None? || low.None? then None else Some(high.value * WORD + low.value)
  }

  function ReadMask(text: string): Option<nat> { ReadWords(Split(text, ',')) }

  lemma ReadWordsSnoc(words: seq<string>, w: string)
    requires ReadWords(words).Some? && Read(w, 16).Some?
    ensures ReadWords(words + [w]) == Some(ReadWords(words).value * WORD + Read(w, 16).value)
  {
    hide Read;
    assert (words + [w])[..|words|] == words;
  }

  lemma {:induction false} ReadWordsBack(cpus: nat)
    ensures ReadWords(Reverse(Hex(Words(cpus)))) == Some(Pow2(cpus) - 1)
  {
    hide Print;
    hide Read;
    hide Pow2;
    hide ReadWords;
    if cpus <= 32 {
      OneWord(cpus);
    } else {
      HexNext(cpus);
      hide Hex;
      hide Reverse;
      hide Words;
      ReadWordsBack(cpus - 32);
      ReadPrint(WORD - 1, 16);
      ReadWordsSnoc(Reverse(Hex(Words(cpus - 32))), Print(WORD - 1, 16));
      ShiftIn(cpus);
    }
  }

  lemma OneWord(cpus: nat)
    requires cpus <= 32
    ensures ReadWords(Reverse(Hex(Words(cpus)))) == Some(Pow2(cpus) - 1)
  {
    hide Print;
    hide Read;
    hide Pow2;
    ReadPrint(Pow2(cpus) - 1, 16);
    ReadWordsSnoc([], Print(Pow2(cpus) - 1, 16));
    assert Reverse(Hex(Words(cpus))) == [] + [Print(Pow2(cpus) - 1, 16)];
  }

  lemma HexNext(cpus: nat)
    requires cpus > 32
    ensures Hex(Words(cpus)) == [Print(WORD - 1, 16)] + Hex(Words(cpus - 32))
    ensures Reverse(Hex(Words(cpus))) == Reverse(Hex(Words(cpus - 32))) + [Print(WORD - 1, 16)]
  {
    hide Print;
    assert Hex(Words(cpus)) == [Print(WORD - 1, 16)] + Hex(Words(cpus - 32));
  }

  lemma ShiftIn(cpus: nat)
    requires cpus > 32
    ensures (Pow2(cpus - 32) - 1) * WORD + (WORD - 1) == Pow2(cpus) - 1
  {
    Pow2Word();
    Pow2Adds(32, cpus - 32);
  }

  /** Read back in base 2^32, the text is 2^cpus - 1. */
  lemma CpuMapReadsBack(cpus: nat)
    ensures ReadMask(CpuMapText(cpus)) == Some(Pow2(cpus) - 1)
  {
    CpuMapSplits(cpus);
    ReadWordsBack(cpus);
  }

  // ---- the same cpus three times

  predicate Bit(mask: nat, i: nat) { mask / Pow2(i) % 2 == 1 }

  lemma MaskBits(cpus: nat, i: nat)
    ensures Bit(Pow2(cpus) - 1, i) <==> i < cpus
  {
    hide Pow2;
    if i < cpus {
      SplitBelow(cpus, i);
      BitBelow(Pow2(cpus), Pow2(i), Pow2(cpus - i - 1));
    } else {
      Pow2Adds(cpus, i - cpus);
      BitAbove(Pow2(cpus), Pow2(i), Pow2(i - cpus));
    }
  }

  lemma SplitBelow(cpus: nat, i: nat)
    requires i < cpus
    ensures Pow2(cpus) == Pow2(i) * (2 * Pow2(cpus - i - 1))
  {
    Pow2Adds(i, cpus - i);
  }

  lemma BitBelow(m: nat, a: nat, q: nat)
    requires a > 0 && q > 0 && m == a * (2 * q)
    ensures m > 0 && (m - 1) / a % 2 == 1
  {
    assert m == a * (2 * q - 1) + a;
    Quotient(m - 1, a, 2 * q - 1, a - 1);
  }

  lemma BitAbove(m: nat, a: nat, k: nat)
    requires m > 0 && k > 0 && a == m * k
    ensures a > 0 && (m - 1) / a % 2 == 0
  {
    Grows(m, k);
    Quotient(m - 1, a, 0, m - 1);
  }

  /** The cpulist text of nodefs.files. */
  function CpuListText(cpus: nat): string
    requires cpus > 0
  {
    if cpus == 1 then "0" else "0-" + Decimal(cpus - 1)
  }

  /** A first and a last cpu, or one cpu, as the kernel reads the list. */
  function ReadList(text: string): Option<(nat, nat)> {
    var (a, b) := Partition(text, '-');
    var first, last := Read(a, 10), if b == "" then Read(a, 10) else Read(b, 10);
    if first.None? || last.None? then None else Some((first.value, last.value))
  }

  lemma CpuListReadsBack(cpus: nat)
    requires cpus > 0
    ensures ReadList(CpuListText(cpus)) == Some((0, cpus - 1))
  {
    assert Decimal(0) == "0";
    ReadPrint(0, 10);
    ReadPrint(cpus - 1, 10);
    if cpus > 1 {
      PartitionAt("0", Decimal(cpus - 1), '-');
      assert "0" + ['-'] + Decimal(cpus - 1) == "0-" + Decimal(cpus - 1);
    }
  }

  /** cpumap, cpulist and the links of a node name the same cpus: 0 up to its cpu count. */
  lemma SameCpus(cluster: string, n: Node, i: nat)
    requires n.cpu > 0
    ensures ReadMask(CpuMapText(n.cpu)).Some? && ReadList(CpuListText(n.cpu)).Some?
    ensures Bit(ReadMask(CpuMapText(n.cpu)).value, i) <==> i < n.cpu
    ensures ReadList(CpuListText(n.cpu)).value.0 <= i <= ReadList(CpuListText(n.cpu)).value.1 <==> i < n.cpu
    ensures Units.Node0(cluster, n.name, "cpu" + Decimal(i)) in Units.NodeLinks(cluster, n) <==> i < n.cpu
  {
    CpuMapReadsBack(n.cpu);
    CpuListReadsBack(n.cpu);
    MaskBits(n.cpu, i);
    var links := Units.NodeLinks(cluster, n);
    if i < n.cpu {
      assert links[i] == Units.Node0(cluster, n.name, "cpu" + Decimal(i));
    }
    if j :| 0 <= j < n.cpu && links[j] == Units.Node0(cluster, n.name, "cpu" + Decimal(i)) {
      var a, b := Units.Node0(cluster, n.name, "cpu" + Decimal(i)), Units.Node0(cluster, n.name, "cpu" + Decimal(j));
      assert a.parts[4] == b.parts[4];
      assert ("cpu" + Decimal(i))[3..] == Decimal(i) && ("cpu" + Decimal(j))[3..] == Decimal(j);
      PrintInjective(i, j, 10);
    }
  }
}
