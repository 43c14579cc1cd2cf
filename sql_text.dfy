/** SQL text as the handlers assemble it: `Array.prototype.join` and the `?` bind placeholders. */
module SqlText {

  /** `parts.join(sep)`. */
  function Join(parts: seq<string>, sep: string): string {
    if |parts| == 0 then ""
    else if |parts| == 1 then parts[0]
    else parts[0] + sep + Join(parts[1..], sep)
  }

  /** How many `?` placeholders a statement has. */
  function Placeholders(s: string): nat {
    if s == [] then 0 else (if s[0] == '?' then 1 else 0) + Placeholders(s[1..])
  }

  /** The placeholders of all `parts` together. */
  function TotalPlaceholders(parts: seq<string>): nat {
    if parts == [] then 0 else Placeholders(parts[0]) + TotalPlaceholders(parts[1..])
  }

  /** The positional bind placeholder. */
  const Param: string := "?"

  predicate HasNoParam(s: string) {
    forall i :: 0 <= i < |s| ==> s[i] != '?'
  }

  /** Two texts without a `?` make one without a `?`. */
  lemma NoParamAppend(a: string, b: string)
    requires HasNoParam(a) && HasNoParam(b)
    ensures HasNoParam(a + b)
  {
    forall i | 0 <= i < |a + b| ensures (a + b)[i] != '?' {
      if i >= |a| { assert (a + b)[i] == b[i - |a|]; }
    }
  }

  /** Text without a `?` has no placeholder. */
  lemma {:induction false} NoPlaceholders(s: string)
    requires HasNoParam(s)
    ensures Placeholders(s) == 0
  {
    if s != [] {
      NoPlaceholders(s[1..]);
    }
  }

  /** `a ?` with no `?` in `a`: one placeholder. */
  lemma OnePlaceholder(a: string)
    requires HasNoParam(a)
    ensures Placeholders(a + Param) == 1
  {
    NoPlaceholders(a);
    PlaceholdersAppend(a, Param);
    assert Param[1..] == [];
  }

  /** `a ? b ? c` with no `?` in `a`, `b`, `c`: two placeholders. */
  lemma TwoPlaceholders(a: string, b: string, c: string)
    requires HasNoParam(a) && HasNoParam(b) && HasNoParam(c)
    ensures Placeholders(a + Param + b + Param + c) == 2
  {
    OnePlaceholder(a);
    OnePlaceholder(b);
    NoPlaceholders(c);
    assert a + Param + b + Param == (a + Param) + (b + Param);
    PlaceholdersAppend(a + Param, b + Param);
    PlaceholdersAppend(a + Param + b + Param, c);
  }

  lemma {:induction false} PlaceholdersAppend(a: string, b: string)
    ensures Placeholders(a + b) == Placeholders(a) + Placeholders(b)
  {
    if a != [] {
      assert (a + b)[1..] == a[1..] + b;
      PlaceholdersAppend(a[1..], b);
    } else {
      assert a + b == b;
    }
  }

  /** Joining with a separator that has no placeholder keeps every part's placeholders and adds none. */
  lemma {:induction false} JoinPlaceholders(parts: seq<string>, sep: string)
    requires Placeholders(sep) == 0
    ensures Placeholders(Join(parts, sep)) == TotalPlaceholders(parts)
  {
    if |parts| >= 2 {
      JoinPlaceholders(parts[1..], sep);
      PlaceholdersAppend(parts[0] + sep, Join(parts[1..], sep));
      PlaceholdersAppend(parts[0], sep);
      assert TotalPlaceholders(parts[1..][1..]) == TotalPlaceholders(parts[2..]);
    } else if |parts| == 1 {
      assert parts[1..] == [];
    }
  }

  lemma {:induction false} TotalPlaceholdersAppend(a: seq<string>, b: seq<string>)
    ensures TotalPlaceholders(a + b) == TotalPlaceholders(a) + TotalPlaceholders(b)
  {
    if a != [] {
      assert (a + b)[1..] == a[1..] + b;
      TotalPlaceholdersAppend(a[1..], b);
    } else {
      assert a + b == b;
    }
  }

  /** Text spliced between two pieces without placeholders of their own keeps its placeholders and gains the tail's. */
  lemma Spliced(head: string, mid: string, tail: string)
    requires HasNoParam(head)
    ensures Placeholders(head + mid + tail) == Placeholders(mid) + Placeholders(tail)
  {
    NoPlaceholders(head);
    PlaceholdersAppend(head, mid);
    PlaceholdersAppend(head + mid, tail);
  }

  /** The join of `[first] + rest` starts with `first`, and is exactly `first` when `rest` is empty. */
  lemma JoinHead(first: string, rest: seq<string>, sep: string)
    ensures Join([first] + rest, sep) == if rest == [] then first else first + sep + Join(rest, sep)
  {
    assert ([first] + rest)[1..] == rest;
  }
}
