/**
  The names under which one engine instance inserts its inbound and outbound
  stages: "<plugin>_tinierprotocol_in_<n>" and "<plugin>_tinierprotocol_out_<n>",
  where n is the value a process-wide counter reached when the instance was
  constructed. Distinct counter values give distinct names whatever the plugin
  names are, and the two names of one instance never coincide.
 */
module StageIds {

  /** The decimal digit for `d`. */
  function DigitChar(d: nat): (c: char)
    requires d < 10
    ensures '0' <= c <= '9'
  {
    (d + '0' as int) as char
  }

  predicate IsDigit(c: char) {
    '0' <= c <= '9'
  }

  /** Decimal rendering of a natural number, as Java's Integer.toString does for non-negative values. */
  function NatToString(n: nat): (s: string)
    ensures |s| > 0
    ensures forall i :: 0 <= i < |s| ==> IsDigit(s[i])
    ensures n >= 10 ==> |s| >= 2
  {
    if n < 10 then [DigitChar(n)] else NatToString(n / 10) + [DigitChar(n % 10)]
  }

  /** The decimal rendering determines the number. */
  lemma {:induction false} NatToStringInjective(a: nat, b: nat)
    ensures NatToString(a) == NatToString(b) ==> a == b
  {
    if NatToString(a) == NatToString(b) && a >= 10 && b >= 10 {
      var sa, sb := NatToString(a), NatToString(b);
      assert sa[..|sa| - 1] == NatToString(a / 10);
      assert sb[..|sb| - 1] == NatToString(b / 10);
      NatToStringInjective(a / 10, b / 10);
      assert DigitChar(a % 10) == sa[|sa| - 1] == DigitChar(b % 10);
    }
  }

  const InInfix: string := "_tinierprotocol_in_"
  const OutInfix: string := "_tinierprotocol_out_"

  /** The inbound stage name of the instance built for `plugin` with counter value `n`. */
  function InId(plugin: string, n: nat): (r: string)
    ensures |r| > |plugin| + |InInfix| && r[..|plugin|] == plugin
    ensures r[|plugin|..|plugin| + |InInfix|] == InInfix
  {
    plugin + InInfix + NatToString(n)
  }

  /** The outbound stage name of the instance built for `plugin` with counter value `n`. */
  function OutId(plugin: string, n: nat): (r: string)
    ensures |r| > |plugin| + |OutInfix| && r[..|plugin|] == plugin
    ensures r[|plugin|..|plugin| + |OutInfix|] == OutInfix
  {
    plugin + OutInfix + NatToString(n)
  }

  /** Index of the last '_' in `s`, or -1 when there is none. */
  function LastSeparator(s: string): (r: int)
    ensures -1 <= r < |s|
    ensures r >= 0 ==> s[r] == '_'
  {
    if |s| == 0 then -1
    else if s[|s| - 1] == '_' then |s| - 1
    else LastSeparator(s[..|s| - 1])
  }

  /** In "<head>_<digits>" the last separator is the one that ends the head. */
  lemma {:induction false} LastSeparatorOf(head: string, digits: string)
    requires |head| > 0 && head[|head| - 1] == '_'
    requires forall i :: 0 <= i < |digits| ==> IsDigit(digits[i])
    ensures LastSeparator(head + digits) == |head| - 1
    decreases |digits|
  {
    if digits == [] {
      assert head + digits == head;
    } else {
      var s := head + digits;
      assert s[|s| - 1] == digits[|digits| - 1];
      assert s[..|s| - 1] == head + digits[..|digits| - 1];
      LastSeparatorOf(head, digits[..|digits| - 1]);
    }
  }

  /** The counter value written after the last separator of a stage name. */
  function Suffix(s: string): string {
    s[LastSeparator(s) + 1..]
  }

  /** Everything up to and including the last separator of a stage name. */
  function Head(s: string): string {
    s[..LastSeparator(s) + 1]
  }

  lemma SplitInId(plugin: string, n: nat)
    ensures Head(InId(plugin, n)) == plugin + InInfix
    ensures Suffix(InId(plugin, n)) == NatToString(n)
  {
    LastSeparatorOf(plugin + InInfix, NatToString(n));
    assert InId(plugin, n) == (plugin + InInfix) + NatToString(n);
  }

  lemma SplitOutId(plugin: string, n: nat)
    ensures Head(OutId(plugin, n)) == plugin + OutInfix
    ensures Suffix(OutId(plugin, n)) == NatToString(n)
  {
    LastSeparatorOf(plugin + OutInfix, NatToString(n));
    assert OutId(plugin, n) == (plugin + OutInfix) + NatToString(n);
  }

  /**
    Stage names of instances built with different counter values differ,
    whatever plugins built them; and an inbound name is never an outbound name.
   */
  lemma StageIdsDistinct(p1: string, n1: nat, p2: string, n2: nat)
    ensures n1 != n2 ==> InId(p1, n1) != InId(p2, n2)
    ensures n1 != n2 ==> OutId(p1, n1) != OutId(p2, n2)
    ensures InId(p1, n1) != OutId(p2, n2)
  {
    SplitInId(p1, n1);
    SplitInId(p2, n2);
    SplitOutId(p1, n1);
    SplitOutId(p2, n2);
    NatToStringInjective(n1, n2);
    var hi, ho := p1 + InInfix, p2 + OutInfix;
    assert hi[|hi| - 2] == 'n';
    assert ho[|ho| - 2] == 't';
  }
}
