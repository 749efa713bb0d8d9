/** MikroTik rate strings (internal/radius/auth.go). */
module Rates {
  import opened Domain
  import Decimal

  function FormatKbps(kbps: int): string {
    if kbps <= 0 then "0K"
    else if kbps >= 1_000_000 then Decimal.Print(kbps / 1000) + "M"
    else Decimal.Print(kbps) + "K"
  }

  /** The string of a user or a profile; empty when neither direction is limited. */
  function FormatPair(up: int, down: int): string {
    if up <= 0 && down <= 0 then "" else FormatKbps(up) + "/" + FormatKbps(down)
  }

  /** The rate in kbit/s that a router reads in a string of digits and a unit. */
  function ReadKbps(s: string): Option<nat> {
    if |s| >= 2 && (forall i :: 0 <= i < |s| - 1 ==> Decimal.IsDigit(s[i])) && (s[|s| - 1] == 'K' || s[|s| - 1] == 'M')
    then Some(Decimal.Read(s[..|s| - 1]) * if s[|s| - 1] == 'M' then 1000 else 1)
    else None
  }

  /** Where the first slash is. */
  function Slash(s: string): (k: nat)
    ensures k <= |s|
  {
    if s == "" || s[0] == '/' then 0 else 1 + Slash(s[1..])
  }

  function ReadPair(s: string): Option<(nat, nat)> {
    var k := Slash(s);
    if k == |s| then None
    else
      var up, down := ReadKbps(s[..k]), ReadKbps(s[k + 1..]);
      if up.Some? && down.Some? then Some((up.value, down.value)) else None
  }

  /** The rate a router is told for a configured one: whole Mbit/s from 1 Gbit/s up. */
  function ReadBack(kbps: int): nat {
    if kbps <= 0 then 0 else if kbps >= 1_000_000 then kbps - kbps % 1000 else kbps
  }

  /** The rounding bound: never more than configured, less than 1 Mbit/s lost, and nothing
      lost exactly below 1 Gbit/s or at whole Mbit/s. */
  lemma ReadOfFormat(kbps: int)
    ensures ReadKbps(FormatKbps(kbps)) == Some(ReadBack(kbps))
    ensures kbps >= 0 ==> ReadBack(kbps) <= kbps < ReadBack(kbps) + 1000
    ensures ReadBack(kbps) == kbps <==> kbps >= 0 && (kbps < 1_000_000 || kbps % 1000 == 0)
  {
    var s := FormatKbps(kbps);
    if kbps <= 0 {
      assert s[..1] == "0" && "0"[..0] == "";
      assert Decimal.Read("0") == Decimal.Read("") * 10 + Decimal.Value('0');
    } else {
      var n := if kbps >= 1_000_000 then kbps / 1000 else kbps;
      assert s[..|s| - 1] == Decimal.Print(n);
      Decimal.ReadOfPrint(n);
    }
  }

  lemma NoSlash(kbps: int)
    ensures '/' !in FormatKbps(kbps)
  {
  }

  lemma {:induction false} SlashAfter(a: string, b: string)
    requires '/' !in a
    ensures Slash(a + "/" + b) == |a|
    decreases |a|
  {
    if a == "" {
      assert a + "/" + b == "/" + b;
    } else {
      assert (a + "/" + b)[1..] == a[1..] + "/" + b;
      SlashAfter(a[1..], b);
    }
  }

  /** A limit is sent exactly when one direction is limited, and it is read back as both
      rates, each in its own place; an unlimited direction next to a limited one is read
      back as zero. */
  lemma PairReadsBack(up: int, down: int)
    ensures FormatPair(up, down) == "" <==> up <= 0 && down <= 0
    ensures FormatPair(up, down) != "" ==> ReadPair(FormatPair(up, down)) == Some((ReadBack(up), ReadBack(down)))
  {
    var a, b := FormatKbps(up), FormatKbps(down);
    if up > 0 || down > 0 {
      NoSlash(up);
      SlashAfter(a, b);
      assert (a + "/" + b)[..|a|] == a && (a + "/" + b)[|a| + 1..] == b;
      ReadOfFormat(up);
      ReadOfFormat(down);
    }
  }
}
