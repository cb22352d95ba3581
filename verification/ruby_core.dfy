/**
 Behaviour of the Ruby core library that the uploader relies on:
 truthiness of the values `Kernel#system` returns, `Float#to_i`,
 `Integer#to_s` (through string interpolation) and `File.basename`.
 */
module RubyCore {

  /** The three values `Kernel#system` can return; `ready == true` holds only for True. */
  datatype RubyBool = True | False | Nil

  /** `Float#to_i`: truncation toward zero. */
  function TruncateToInt(x: real): (r: int)
    ensures 0.0 <= x ==> 0 <= r && r as real <= x < r as real + 1.0
    ensures x < 0.0 ==> r <= 0 && r as real - 1.0 < x <= r as real
  {
    if 0.0 <= x then x.Floor else -((-x).Floor)
  }

  predicate IsDigit(c: char) {
    '0' <= c <= '9'
  }

  predicate AllDigits(s: string) {
    forall i :: 0 <= i < |s| ==> IsDigit(s[i])
  }

  function DigitChar(d: nat): (c: char)
    requires d < 10
  {
    ('0' as int + d) as char
  }

  function DigitValue(c: char): (d: nat)
    requires IsDigit(c)
  {
    c as int - '0' as int
  }

  /** Decimal text of a natural number, as `"#{n}"` writes an Integer. */
  function Decimal(n: nat): (s: string)
    ensures 0 < |s| && AllDigits(s)
    ensures n == 0 <==> s == "0"
    ensures 1 < |s| ==> s[0] != '0'
    decreases n
  {
    if n < 10 then [DigitChar(n)] else Decimal(n / 10) + [DigitChar(n % 10)]
  }

  /** Reads a run of decimal digits back as a number (the empty run reads as 0). */
  function ParseNat(s: string): (n: nat)
    requires AllDigits(s)
    decreases |s|
  {
    if |s| == 0 then 0 else 10 * ParseNat(s[..|s| - 1]) + DigitValue(s[|s| - 1])
  }

  /** Reading the decimal text of `n` gives `n` back. */
  lemma {:induction false} ParseNatDecimal(n: nat)
    ensures ParseNat(Decimal(n)) == n
    decreases n
  {
    var s := Decimal(n);
    if n < 10 {
      assert s[..|s| - 1] == [];
    } else {
      assert s[..|s| - 1] == Decimal(n / 10);
      ParseNatDecimal(n / 10);
    }
  }

  /** Distinct numbers have distinct decimal texts. */
  lemma DecimalInjective(m: nat, n: nat)
    ensures Decimal(m) == Decimal(n) ==> m == n
  {
    ParseNatDecimal(m);
    ParseNatDecimal(n);
  }

  /** Position of the first `c` in `s`, or `|s|` when there is none. */
  function IndexOf(s: string, c: char): (i: nat)
    ensures i <= |s|
    ensures i < |s| ==> s[i] == c
    ensures forall j :: 0 <= j < i ==> s[j] != c
    decreases |s|
  {
    if |s| == 0 then 0 else if s[0] == c then 0 else 1 + IndexOf(s[1..], c)
  }

  /** `p` without its run of trailing slashes. */
  function StripTrailingSlashes(p: string): (t: string)
    ensures |t| <= |p| && t == p[..|t|]
    ensures t == [] || t[|t| - 1] != '/'
    ensures forall i :: |t| <= i < |p| ==> p[i] == '/'
    decreases |p|
  {
    if 0 < |p| && p[|p| - 1] == '/' then StripTrailingSlashes(p[..|p| - 1]) else p
  }

  /** The slash-free tail of `t`: everything after its last slash. */
  function LastComponent(t: string): (c: string)
    ensures |c| <= |t| && c == t[|t| - |c|..]
    ensures forall i :: 0 <= i < |c| ==> c[i] != '/'
    ensures |c| == |t| || t[|t| - |c| - 1] == '/'
    decreases |t|
  {
    if |t| == 0 || t[|t| - 1] == '/' then [] else LastComponent(t[..|t| - 1]) + [t[|t| - 1]]
  }

  /**
   `File.basename(path)`: the last component after trailing slashes are
   dropped; a path made only of slashes gives "/", the empty path gives "".
   */
  function Basename(path: string): (b: string)
    ensures |b| == 0 <==> |path| == 0
    ensures b == "/" || forall i :: 0 <= i < |b| ==> b[i] != '/'
    ensures b == "/" <==> 0 < |path| && forall i :: 0 <= i < |path| ==> path[i] == '/'
  {
    var t := StripTrailingSlashes(path);
    if t == [] then (if path == [] then [] else "/") else LastComponent(t)
  }

  /** The last component of a slash-free name after a separator is that name. */
  lemma {:induction false} LastComponentAfterSeparator(prefix: string, name: string)
    requires prefix == [] || prefix[|prefix| - 1] == '/'
    requires forall i :: 0 <= i < |name| ==> name[i] != '/'
    ensures LastComponent(prefix + name) == name
    decreases |name|
  {
    var p := prefix + name;
    if |name| == 0 {
      assert p == prefix;
    } else {
      var init := name[..|name| - 1];
      var last := name[|name| - 1];
      assert p[|p| - 1] == last;
      assert p[..|p| - 1] == prefix + init;
      LastComponentAfterSeparator(prefix, init);
      assert LastComponent(p) == LastComponent(prefix + init) + [last];
      assert init + [last] == name;
    }
  }

  /** The basename of `dir/name` is `name` whenever `name` is a non-empty slash-free name. */
  lemma BasenameOfJoin(dir: string, name: string)
    requires 0 < |name|
    requires forall i :: 0 <= i < |name| ==> name[i] != '/'
    ensures Basename(dir + "/" + name) == name
  {
    var p := dir + "/" + name;
    assert p[|p| - 1] == name[|name| - 1];
    assert StripTrailingSlashes(p) == p;
    assert p == (dir + "/") + name;
    LastComponentAfterSeparator(dir + "/", name);
  }

  /** A bare, slash-free file name is its own basename. */
  lemma BasenameOfName(name: string)
    requires 0 < |name|
    requires forall i :: 0 <= i < |name| ==> name[i] != '/'
    ensures Basename(name) == name
  {
    assert name[|name| - 1] != '/';
    assert StripTrailingSlashes(name) == name;
    assert [] + name == name;
    LastComponentAfterSeparator([], name);
  }
}
