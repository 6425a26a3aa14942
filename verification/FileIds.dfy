/** File ids: what getattr and readdir report for a node, and which nodes share one. */
module FileIds {
  import opened Structure

  const WORD: nat := 0x1_0000_0000_0000_0000

  /** Bitwise or. */
  function Or(a: nat, b: nat): nat {
    if a == 0 then b
    else (if a % 2 == 1 || b % 2 == 1 then 1 else 0) + 2 * Or(a / 2, b / 2)
  }

  /** `pid << 8` as a 32-bit integer, widened to 64 bits. */
  function ShiftedPid(pid: int): nat {
    var v := pid * 256 % 0x1_0000_0000;
    if v < 0x8000_0000 then v else v + 0xFFFF_FFFF_0000_0000
  }

  /** The base id, with the pid, if any, from bit 8 and the object id from bit 24. */
  function FileId(pid: int, obj: nat, base: nat): nat {
    var id := base % 0x1_0000;
    Or(if pid != NO_PID then Or(id, ShiftedPid(pid)) else id, obj * 0x100_0000 % WORD)
  }

  // ---------- the fields ----------

  function Pow2(k: nat): (p: nat)
    ensures p > 0
  {
    if k == 0 then 1 else 2 * Pow2(k - 1)
  }

  lemma {:induction false} OrZero(a: nat)
    ensures Or(a, 0) == a
  {
    if a > 0 { OrZero(a / 2); }
  }

  lemma {:induction false} OrSelf(a: nat)
    ensures Or(a, a) == a
  {
    if a > 0 { OrSelf(a / 2); }
  }

  lemma HalfOfSum(l: nat, a: nat, p: nat, x: nat)
    requires x == l + a * (2 * p)
    ensures x / 2 == l / 2 + a * p && x % 2 == l % 2
  {
    assert x == l % 2 + 2 * (l / 2 + a * p);
  }

  lemma WholeOfHalf(l: nat, o: nat, p: nat, half: nat)
    requires half == l / 2 + o * p
    ensures l % 2 + 2 * half == l + o * (2 * p)
  {
  }

  lemma OrStep(x: nat, y: nat, half: nat)
    requires Or(x / 2, y / 2) == half && y % 2 == 0
    ensures Or(x, y) == x % 2 + 2 * half
  {
  }

  /** One bit of the shift. */
  lemma OrSplitStep(l: nat, a: nat, b: nat, p: nat, x: nat, y: nat, o: nat)
    requires x == l + a * (2 * p) && y == b * (2 * p)
    requires Or(l / 2 + a * p, b * p) == l / 2 + o * p
    ensures Or(x, y) == l + o * (2 * p)
  {
    HalfOfSum(l, a, p, x);
    HalfOfSum(0, b, p, y);
    OrStep(x, y, l / 2 + o * p);
    WholeOfHalf(l, o, p, l / 2 + o * p);
  }

  /** What lies below bit `k` in one operand only stays as it is. */
  lemma {:induction false} OrSplit(l: nat, a: nat, b: nat, k: nat, p: nat, x: nat, y: nat, o: nat)
    requires p == Pow2(k) && l < p && x == l + a * p && y == b * p && o == Or(a, b)
    ensures Or(x, y) == l + o * p
    decreases k
  {
    if k == 0 {
      assert x == a && y == b;
    } else {
      var q := Pow2(k - 1);
      OrSplit(l / 2, a, b, k - 1, q, l / 2 + a * q, b * q, o);
      OrSplitStep(l, a, b, q, x, y, o);
    }
  }

  lemma OrBits8(l: nat, a: nat, b: nat)
    requires l < 0x100
    ensures Or(l + a * 0x100, b * 0x100) == l + Or(a, b) * 0x100
  {
    Powers();
    OrSplit(l, a, b, 8, 0x100, l + a * 0x100, b * 0x100, Or(a, b));
  }

  lemma OrBits24(l: nat, b: nat)
    requires l < 0x100_0000
    ensures Or(l, b * 0x100_0000) == l + b * 0x100_0000
  {
    Powers();
    OrSplit(l, 0, b, 24, 0x100_0000, l, b * 0x100_0000, b);
  }

  lemma Powers()
    ensures Pow2(8) == 256 && Pow2(24) == 0x100_0000
  {
    assert Pow2(8) == 256;
    assert Pow2(16) == 65536;
  }

  lemma ShiftedObject(obj: nat)
    ensures obj * 0x100_0000 % WORD == obj % 0x100_0000_0000 * 0x100_0000
  {
    var q, r := obj / 0x100_0000_0000, obj % 0x100_0000_0000;
    assert obj * 0x100_0000 == q * WORD + r * 0x100_0000;
  }

  /** The three fields of a file id, as far as the pid stays positive when shifted. */
  lemma Fields(pid: int, obj: nat, base: nat)
    requires 0 <= pid < 0x80_0000 && base < 0x1_0000
    ensures FileId(pid, obj, base) == Or(Or(base, pid * 0x100), obj % 0x100_0000_0000 * 0x100_0000)
  {
    ShiftedObject(obj);
    ShiftedSmall(pid);
    SmallBase(base);
  }

  lemma ShiftedSmall(pid: int)
    requires 0 <= pid < 0x80_0000
    ensures ShiftedPid(pid) == pid * 0x100
  {
  }

  lemma SmallBase(base: nat)
    requires base < 0x1_0000
    ensures base % 0x1_0000 == base
  {
  }

  /** Where the fields do not overlap, the file id is their sum. */
  lemma FileIdIsSum(pid: int, obj: nat, base: nat)
    requires 0 <= pid < 0x1_0000 && base < 0x100
    ensures FileId(pid, obj, base) == base + 0x100 * pid + 0x100_0000 * (obj % 0x100_0000_0000)
  {
    Fields(pid, obj, base);
    OrBits8(base, 0, pid);
    OrBits24(base + 0x100 * pid, obj % 0x100_0000_0000);
  }

  lemma SmallSum(pid: int, obj: nat, base: nat, id: nat)
    requires 0 <= pid < 0x1_0000 && base < 0x100 && obj < 0x100_0000_0000 && id == FileId(pid, obj, base)
    ensures id == base + 0x100 * pid + 0x100_0000 * obj
  {
    FileIdIsSum(pid, obj, base);
    SmallMod(obj);
  }

  lemma SmallMod(obj: nat)
    requires obj < 0x100_0000_0000
    ensures obj % 0x100_0000_0000 == obj
  {
  }

  lemma SumsDiffer(pid: int, obj: nat, base: nat, pid': int, obj': nat, base': nat)
    requires 0 <= pid < 0x1_0000 && 0 <= pid' < 0x1_0000 && base < 0x100 && base' < 0x100
    requires base + 0x100 * pid + 0x100_0000 * obj == base' + 0x100 * pid' + 0x100_0000 * obj'
    ensures pid == pid' && obj == obj' && base == base'
  {
  }

  /** Nodes with small pids and base ids have the same file id exactly when they are the same node. */
  lemma SmallFileIdsDiffer(pid: int, obj: nat, base: nat, pid': int, obj': nat, base': nat)
    requires 0 <= pid < 0x1_0000 && 0 <= pid' < 0x1_0000 && base < 0x100 && base' < 0x100
    requires obj < 0x100_0000_0000 && obj' < 0x100_0000_0000
    ensures FileId(pid, obj, base) == FileId(pid', obj', base') <==> pid == pid' && obj == obj' && base == base'
  {
    if FileId(pid, obj, base) == FileId(pid', obj', base') {
      SmallSum(pid, obj, base, FileId(pid, obj, base));
      SmallSum(pid', obj', base', FileId(pid', obj', base'));
      SumsDiffer(pid, obj, base, pid', obj', base');
    }
  }

  /** A base id that reaches into the pid's bits hides a pid made of those bits. */
  lemma WideBaseHidesPid(base: nat, h: nat)
    requires 0x100 <= base < 0x1_0000 && h == base / 0x100
    ensures 0 < h < 0x100 && FileId(h, NO_OBJECT, base) == FileId(0, NO_OBJECT, base)
  {
    NoObject(h, base);
    NoObject(0, base);
    OrHigh(base % 0x100, h, base);
    OrZero(base);
  }

  lemma NoObject(pid: int, base: nat)
    requires 0 <= pid < 0x100 && base < 0x1_0000
    ensures FileId(pid, NO_OBJECT, base) == Or(base, pid * 0x100)
  {
    Fields(pid, NO_OBJECT, base);
    OrZero(Or(base, pid * 0x100));
  }

  lemma OrHigh(l: nat, h: nat, x: nat)
    requires l < 0x100 && x == l + h * 0x100
    ensures Or(x, h * 0x100) == x
  {
    OrBits8(l, h, h);
    OrSelf(h);
  }

  /** Pids below 2^16 have different file ids under one base id exactly when the base id is below 256. */
  lemma PidsShareNoFileId(base: nat)
    requires base < 0x1_0000
    ensures base < 0x100 <==>
              forall p, q :: 0 <= p < 0x1_0000 && 0 <= q < 0x1_0000 && FileId(p, NO_OBJECT, base) == FileId(q, NO_OBJECT, base) ==> p == q
  {
    if base < 0x100 {
      forall p, q | 0 <= p < 0x1_0000 && 0 <= q < 0x1_0000 && FileId(p, NO_OBJECT, base) == FileId(q, NO_OBJECT, base) ensures p == q {
        SmallFileIdsDiffer(p, NO_OBJECT, base, q, NO_OBJECT, base);
      }
    } else {
      WideBaseHidesPid(base, base / 0x100);
    }
  }

  /** A pid of 2^16 or more reaches into the object's bits: process 65536 shares its id with object 1 of process 0. */
  lemma WidePidLooksLikeObject(base: nat)
    requires base < 0x100
    ensures FileId(0x1_0000, 0, base) == FileId(0, 1, base)
  {
    FileIdIsSum(0, 1, base);
    Fields(0x1_0000, 0, base);
    OrBits8(base, 0, 0x1_0000);
    OrZero(base + 0x100_0000);
  }

  /** Without a pid the base id and the object id never mix. */
  lemma FileIdWithoutPid(obj: nat, base: nat)
    requires base < 0x1_0000
    ensures FileId(NO_PID, obj, base) == base + 0x100_0000 * (obj % 0x100_0000_0000)
  {
    ShiftedObject(obj);
    OrBits24(base, obj % 0x100_0000_0000);
  }
}
