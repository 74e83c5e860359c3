/** Names of cluster instances, `<cluster>-<ordinal>`: printing them, reading them
    back, and the streams-API address of an instance. */
module InstanceNames {
  import opened Prelude

  const INT32_LIMIT: int := 0x8000_0000
  const INT64_LIMIT: int := 0x8000_0000_0000_0000

  function DigitChar(d: nat): (c: char)
    requires d < 10
    ensures IsDigit(c) && DigitValue(c) == d
  {
    "0123456789"[d]
  }

  predicate IsDigit(c: char) { '0' <= c <= '9' }

  function DigitValue(c: char): (d: nat)
    requires IsDigit(c)
  {
    c as int - '0' as int
  }

  predicate AllDigits(s: string) { forall i :: 0 <= i < |s| ==> IsDigit(s[i]) }

  /** Decimal text of a natural number, without leading zeros. */
  function Digits(n: nat): (s: string)
    ensures s != "" && AllDigits(s)
  {
    if n < 10 then [DigitChar(n)] else Digits(n / 10) + [DigitChar(n % 10)]
  }

  /** Go's `%d` for a signed integer. */
  function Itoa(n: int): (s: string) {
    if n < 0 then "-" + Digits(-n) else Digits(n)
  }

  function DecimalValue(s: string): (n: nat)
    requires AllDigits(s)
  {
    if s == "" then 0 else DecimalValue(s[..|s| - 1]) * 10 + DigitValue(s[|s| - 1])
  }

  /** `strconv.Atoi` on a 64-bit platform: an optional sign, then at least one digit,
      and a value that fits in 64 bits. */
  function Atoi(s: string): (r: Option<int>) {
    var signed := s != "" && (s[0] == '-' || s[0] == '+');
    var body := if signed then s[1..] else s;
    if body == "" || !AllDigits(body) then None
    else
      var v: int := if s[0] == '-' then 0 - DecimalValue(body) else DecimalValue(body);
      if -INT64_LIMIT <= v < INT64_LIMIT then Some(v) else None
  }

  /** Conversion to a 32-bit integer keeps the low 32 bits. */
  function Int32(n: int): (r: int)
    ensures -INT32_LIMIT <= r < INT32_LIMIT
    ensures -INT32_LIMIT <= n < INT32_LIMIT ==> r == n
  {
    (n + INT32_LIMIT) % (2 * INT32_LIMIT) - INT32_LIMIT
  }

  /** The ordinal in a pod name of the form `<cluster>-<ordinal>`. The controller and
      the API server each carry a copy of this function. */
  function OrdinalFromPodName(podName: string, clusterName: string): (r: Option<int>)
    ensures r.Some? ==> -INT32_LIMIT <= r.value < INT32_LIMIT && clusterName + "-" <= podName
  {
    var prefix := clusterName + "-";
    if !(prefix <= podName) then None
    else
      var n := Atoi(podName[|prefix|..]);
      if n.None? || n.value < 0 then None else Some(Int32(n.value))
  }

  function InstanceName(clusterName: string, ordinal: int): (s: string) {
    clusterName + "-" + Itoa(ordinal)
  }

  lemma {:induction false} DigitsRoundTrip(n: nat)
    ensures DecimalValue(Digits(n)) == n
  {
    if n < 10 {
      assert Digits(n)[..0] == "";
    } else {
      DigitsRoundTrip(n / 10);
      var s := Digits(n);
      assert s[..|s| - 1] == Digits(n / 10);
    }
  }

  lemma AtoiOfPrinted(n: int)
    requires -INT64_LIMIT <= n < INT64_LIMIT
    ensures Atoi(Itoa(n)) == Some(n)
  {
    hide Digits, DecimalValue;
    var d := Digits(if n < 0 then -n else n);
    DigitsRoundTrip(if n < 0 then -n else n);
    if n < 0 {
      assert Itoa(n)[1..] == d;
    } else {
      assert IsDigit(d[0]);
    }
  }

  /** Printing an instance name and reading it back gives the ordinal exactly for the
      ordinals in 0..2^31-1: negative ones are refused, larger ones are truncated. */
  lemma OrdinalRoundTrip(clusterName: string, n: int)
    requires -INT64_LIMIT <= n < INT64_LIMIT
    ensures OrdinalFromPodName(InstanceName(clusterName, n), clusterName) == Some(n) <==> 0 <= n < INT32_LIMIT
    ensures n < 0 ==> OrdinalFromPodName(InstanceName(clusterName, n), clusterName) == None
  {
    AtoiOfPrinted(n);
    var prefix := clusterName + "-";
    assert InstanceName(clusterName, n)[|prefix|..] == Itoa(n);
  }

  /** Ordinals are printed in decimal: the last digit is the remainder by ten, the others the quotient. */
  lemma PrintedInDecimal(clusterName: string, n: nat)
    ensures n < 10 ==> InstanceName(clusterName, n) == clusterName + "-" + ["0123456789"[n]]
    ensures n >= 10 ==> InstanceName(clusterName, n) == InstanceName(clusterName, n / 10) + ["0123456789"[n % 10]]
  {
  }

  lemma {:induction false} LeadingZero(s: string)
    requires AllDigits(s)
    ensures AllDigits("0" + s) && DecimalValue("0" + s) == DecimalValue(s)
  {
    if s == "" {
      assert ("0" + s)[..0] == "";
    } else {
      LeadingZero(s[..|s| - 1]);
      assert ("0" + s)[..|s|] == "0" + s[..|s| - 1];
    }
  }

  /** What stands after the dash decides. */
  lemma ReadsSuffix(clusterName: string, suffix: string, n: nat)
    requires Atoi(suffix) == Some(n)
    ensures OrdinalFromPodName(clusterName + "-" + suffix, clusterName) == Some(Int32(n))
  {
    hide Atoi, Int32;
    var prefix := clusterName + "-";
    assert (prefix + suffix)[|prefix|..] == suffix && prefix <= prefix + suffix;
  }

  lemma AtoiPlus(n: nat)
    requires n < INT64_LIMIT
    ensures Atoi("+" + Digits(n)) == Some(n)
  {
    hide Digits, DecimalValue;
    DigitsRoundTrip(n);
    assert ("+" + Digits(n))[1..] == Digits(n);
  }

  lemma AtoiLeadingZero(n: nat)
    requires n < INT64_LIMIT
    ensures Atoi("0" + Digits(n)) == Some(n)
  {
    hide Digits, DecimalValue;
    DigitsRoundTrip(n);
    LeadingZero(Digits(n));
  }

  lemma Int32Wraps(n: nat)
    requires INT32_LIMIT <= n < 2 * INT32_LIMIT
    ensures Int32(n) == n - 2 * INT32_LIMIT
  {
  }

  /** Ordinals from 2^31 to 2^32-1 are read as negative ones. */
  lemma LargeOrdinalsWrap(clusterName: string, n: nat)
    requires INT32_LIMIT <= n < 2 * INT32_LIMIT
    ensures OrdinalFromPodName(InstanceName(clusterName, n), clusterName) == Some(n - 2 * INT32_LIMIT)
  {
    AtoiOfPrinted(n);
    Int32Wraps(n);
    hide Digits, Atoi, OrdinalFromPodName, Int32;
    ReadsSuffix(clusterName, Itoa(n), n);
  }

  /** Ordinals are also read with a plus sign or a leading zero. */
  lemma OtherSpellings(clusterName: string, n: nat)
    requires n < INT64_LIMIT
    ensures OrdinalFromPodName(clusterName + "-" + ("+" + Digits(n)), clusterName) == Some(Int32(n))
    ensures OrdinalFromPodName(clusterName + "-" + ("0" + Digits(n)), clusterName) == Some(Int32(n))
  {
    hide Digits, Atoi, OrdinalFromPodName, Int32, AllDigits;
    AtoiPlus(n);
    AtoiLeadingZero(n);
    ReadsSuffix(clusterName, "+" + Digits(n), n);
    ReadsSuffix(clusterName, "0" + Digits(n), n);
  }

  lemma AtoiHasNoInnerDash(s: string, i: int)
    requires Atoi(s).Some? && 0 < i < |s|
    ensures s[i] != '-'
  {
    var signed := s[0] == '-' || s[0] == '+';
    var body := if signed then s[1..] else s;
    var j := if signed then i - 1 else i;
    assert body[j] == s[i] && IsDigit(body[j]);
  }

  /** Exactly when an instance name can be read under a cluster: under its own, and the first
      instance of a cluster named `c-` also under `c`, where the ordinal reads as minus zero. */
  lemma ReadExactly(c1: string, n: nat, c2: string)
    requires n < INT32_LIMIT
    ensures OrdinalFromPodName(InstanceName(c1, n), c2).Some? <==> c1 == c2 || (c1 == c2 + "-" && n == 0)
    ensures OrdinalFromPodName(InstanceName(c1, n), c2).Some? ==> OrdinalFromPodName(InstanceName(c1, n), c2) == Some(n)
  {
    var name := InstanceName(c1, n);
    if c1 == c2 {
      OrdinalRoundTrip(c1, n);
    } else if c1 == c2 + "-" {
      assert name[|c2| + 1..] == "-" + Digits(n);
      MinusRead(n);
    } else if c2 + "-" <= name {
      OtherClusterUnread(c1, n, c2);
    }
  }

  lemma OtherClusterUnread(c1: string, n: nat, c2: string)
    requires c1 != c2 && c1 != c2 + "-" && c2 + "-" <= InstanceName(c1, n)
    ensures Atoi(InstanceName(c1, n)[|c2| + 1..]).None?
  {
    hide Atoi, Digits, DecimalValue;
    var name := InstanceName(c1, n);
    var rest := name[|c2| + 1..];
    var inner := |c1| - |c2| - 1;
    assert name[..|c1|] == c1 && name[|c1|] == '-' && forall k :: |c1| < k < |name| ==> IsDigit(name[k]);
    assert name[..|c2| + 1] == c2 + "-" && name[|c2|] == '-' && name[..|c2|] == c2;
    assert inner > 0 && rest[inner] == '-';
    if Atoi(rest).Some? {
      AtoiHasNoInnerDash(rest, inner);
    }
  }

  /** A negative number is read as such, so only minus zero passes for an ordinal. */
  lemma MinusRead(n: nat)
    requires n < INT32_LIMIT
    ensures Atoi("-" + Digits(n)) == Some(-(n as int))
  {
    hide Digits, DecimalValue;
    DigitsRoundTrip(n);
    assert ("-" + Digits(n))[1..] == Digits(n);
  }

  /** Valid cluster names do not end in a dash: a placement cannot be read under another cluster. */
  lemma ReadOnlyUnderOwnCluster(c1: string, n: nat, c2: string)
    requires n < INT32_LIMIT
    requires c1 == "" || c1[|c1| - 1] != '-'
    ensures OrdinalFromPodName(InstanceName(c1, n), c2).Some? <==> c1 == c2
  {
    ReadExactly(c1, n, c2);
  }

  /** Two instances with the same name are the same instance of the same cluster. */
  lemma InstanceNameInjective(c1: string, n1: nat, c2: string, n2: nat)
    requires InstanceName(c1, n1) == InstanceName(c2, n2)
    ensures c1 == c2 && n1 == n2
  {
    var name := InstanceName(c1, n1);
    assert name == c2 + "-" + Digits(n2);
    assert name[|c1|] == '-' && name[|c2|] == '-';
    assert |c1| == |c2|;
    assert c1 == name[..|c1|] == c2;
    assert Digits(n1) == name[|c1| + 1..] == Digits(n2);
    DigitsRoundTrip(n1);
    DigitsRoundTrip(n2);
  }

  /** The streams-API address of an instance, behind the cluster's headless service. */
  function PodUrl(clusterName: string, namespace: string, ordinal: int): string {
    "http://" + (InstanceName(clusterName, ordinal) + ServiceSuffix(clusterName, namespace))
  }

  function ServiceSuffix(clusterName: string, namespace: string): (s: string)
    ensures s != "" && s[0] == '.'
  {
    "." + clusterName + "." + namespace + ".svc:4195"
  }

  /** Distinct instances have distinct addresses (service names are DNS labels, without a dot). */
  lemma PodUrlInjective(c1: string, n1: nat, c2: string, n2: nat, namespace: string)
    requires '.' !in c1 && '.' !in c2 && PodUrl(c1, namespace, n1) == PodUrl(c2, namespace, n2)
    ensures c1 == c2 && n1 == n2
  {
    var a, b := InstanceName(c1, n1), InstanceName(c2, n2);
    var x, y := ServiceSuffix(c1, namespace), ServiceSuffix(c2, namespace);
    NoDotInName(c1, n1);
    NoDotInName(c2, n2);
    hide InstanceName, ServiceSuffix;
    assert ("http://" + (a + x))[7..] == a + x && ("http://" + (b + y))[7..] == b + y;
    SameUpToDot(a, x, b, y);
    InstanceNameInjective(c1, n1, c2, n2);
  }

  lemma SameUpToDot(a: string, x: string, b: string, y: string)
    requires a + x == b + y && x != "" && y != "" && x[0] == '.' && y[0] == '.'
    requires (forall i :: 0 <= i < |a| ==> a[i] != '.') && (forall i :: 0 <= i < |b| ==> b[i] != '.')
    ensures a == b
  {
    var s := a + x;
    assert s[|a|] == '.' && (b + y)[|b|] == '.';
    assert forall i :: 0 <= i < |a| ==> s[i] == a[i];
    assert forall i :: 0 <= i < |b| ==> (b + y)[i] == b[i];
    assert a == s[..|a|] && b == (b + y)[..|b|];
  }

  lemma NoDotInName(clusterName: string, n: nat)
    requires '.' !in clusterName
    ensures forall i :: 0 <= i < |InstanceName(clusterName, n)| ==> InstanceName(clusterName, n)[i] != '.'
  {
    var d, s := Digits(n), InstanceName(clusterName, n);
    forall i | 0 <= i < |s| ensures s[i] != '.' {
      if i < |clusterName| {
        assert s[i] == clusterName[i] && clusterName[i] in clusterName;
      } else if i > |clusterName| {
        assert s[i] == d[i - |clusterName| - 1] && IsDigit(d[i - |clusterName| - 1]);
      }
    }
  }
}
