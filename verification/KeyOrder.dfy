/** Keys of a JSON object: their order, bytewise, in which the Go library writes and reads them, and
    their case-insensitive match with the names of struct fields. */
module KeyOrder {
  predicate Less(a: string, b: string) {
    if b == "" then false
    else if a == "" then true
    else a[0] < b[0] || (a[0] == b[0] && Less(a[1..], b[1..]))
  }

  lemma {:induction false} LessTotal(a: string, b: string)
    ensures a == b || Less(a, b) || Less(b, a)
    ensures !(Less(a, b) && Less(b, a)) && !Less(a, a)
  {
    if a != "" && b != "" {
      LessTotal(a[1..], b[1..]);
      assert a == [a[0]] + a[1..] && b == [b[0]] + b[1..];
    }
    if a != "" {
      LessTotal(a[1..], a[1..]);
    }
  }

  lemma {:induction false} LessTrans(a: string, b: string, c: string)
    requires Less(a, b) && Less(b, c)
    ensures Less(a, c)
  {
    if a != "" && a[0] == b[0] == c[0] {
      LessTrans(a[1..], b[1..], c[1..]);
    }
  }

  /** The last of some keys. */
  ghost function LastKey(ks: set<string>): (k: string)
    requires ks != {}
    ensures k in ks && forall j :: j in ks ==> j == k || Less(j, k)
    decreases |ks|
  {
    var x :| x in ks;
    var rest := ks - {x};
    if rest == {} then
      assert forall j :: j in ks && j != x ==> j in rest;
      x
    else
      var r := LastKey(rest);
      LessTotal(x, r);
      Dominates(ks, x, r);
      if Less(r, x) then x else r
  }

  lemma Dominates(ks: set<string>, x: string, r: string)
    requires forall j :: j in ks - {x} ==> j == r || Less(j, r)
    ensures Less(r, x) ==> forall j :: j in ks ==> j == x || Less(j, x)
    ensures !Less(r, x) ==> forall j :: j in ks ==> j == r || Less(j, r)
  {
    LessTotal(x, r);
    if Less(r, x) {
      forall j | j in ks && j != x ensures Less(j, x) {
        if j != r {
          LessTrans(j, r, x);
        }
      }
    }
  }

  lemma LastKeyIs(ks: set<string>, k: string)
    requires k in ks && forall j :: j in ks ==> j == k || Less(j, k)
    ensures LastKey(ks) == k
  {
    LessTotal(LastKey(ks), k);
  }

  function LowerChar(c: char): char {
    if 'A' <= c <= 'Z' then (c as int + 32) as char else c
  }

  function Fold(k: string): (r: string)
    ensures |r| == |k|
    ensures forall i :: 0 <= i < |k| ==> r[i] == LowerChar(k[i])
  {
    seq(|k|, i requires 0 <= i < |k| => LowerChar(k[i]))
  }

  /** A name in lower case comes behind all its variants. */
  lemma VariantsFirst(k: string, name: string)
    requires Fold(k) == name && Fold(name) == name
    ensures k == name || Less(k, name)
  {
    LowerLater(k, name);
  }

  lemma {:induction false} LowerLater(k: string, name: string)
    requires |k| == |name|
    requires forall i :: 0 <= i < |k| ==> k[i] == name[i] || k[i] < name[i]
    ensures k == name || Less(k, name)
  {
    if k != "" {
      LowerLater(k[1..], name[1..]);
      assert k == [k[0]] + k[1..] && name == [name[0]] + name[1..];
    }
  }
}
