/**
 * The display helpers of one cart line (components/CartItem.tsx): its unit
 * price, its image URL, the summary of its customizations, and the arguments
 * its three buttons pass to the cart store. Prices are integers in minor
 * currency units.
 */
module CartItem {
  import opened Wrappers

  /** A chosen customization, as far as this component reads it. */
  datatype Customization = Customization(name: string, price: int)

  /** A cart line; `customizations` is `None` where the line has none recorded. */
  datatype CartLine = CartLine(
    id: string,
    name: string,
    price: int,
    imageUrl: string,
    quantity: int,
    customizations: Option<seq<Customization>>)

  /** `item.customizations || []`. */
  function CustomizationList(item: CartLine): (cs: seq<Customization>)
    ensures item.customizations.None? ==> cs == []
    ensures item.customizations.Some? ==> cs == item.customizations.value
  {
    if item.customizations.Some? then item.customizations.value else []
  }

  // ---------------------------------------------------------------- unit price

  /** Reference sum of the customization prices. */
  function Sum(cs: seq<Customization>): int {
    if cs == [] then 0 else cs[0].price + Sum(cs[1..])
  }

  /** `cs.reduce((sum, c) => sum + c.price, acc)`: a left fold from `acc`. */
  function ReducePrices(cs: seq<Customization>, acc: int): (r: int)
    ensures r == acc + Sum(cs)
  {
    if cs == [] then acc else ReducePrices(cs[1..], acc + cs[0].price)
  }

  /** `totalItemPrice`: the base price plus every customization price. */
  function TotalItemPrice(item: CartLine): (r: int)
    ensures r == item.price + Sum(CustomizationList(item))
  {
    item.price + (if item.customizations.Some? then ReducePrices(item.customizations.value, 0) else 0)
  }

  /** A line without customizations costs its base price. */
  lemma PlainLinePrice(item: CartLine)
    requires item.customizations == None || item.customizations == Some([])
    ensures TotalItemPrice(item) == item.price
  {
  }

  lemma {:induction false} SumAppend(a: seq<Customization>, b: seq<Customization>)
    ensures Sum(a + b) == Sum(a) + Sum(b)
  {
    if a == [] {
      assert a + b == b;
    } else {
      assert (a + b)[1..] == a[1..] + b;
      SumAppend(a[1..], b);
    }
  }

  /** Taking one customization out of a list takes its price out of the sum. */
  lemma SumRemove(b: seq<Customization>, k: int)
    requires 0 <= k < |b|
    ensures Sum(b) == b[k].price + Sum(b[..k] + b[k + 1..])
  {
    var left, right := b[..k], b[k + 1..];
    var tail := [b[k]] + right;
    assert b == left + tail;
    SumAppend(left, tail);
    assert tail[1..] == right;
    SumAppend(left, right);
  }

  /** `x` occurs in `b` at some index; the first such index is returned. */
  lemma {:induction false} IndexOf(b: seq<Customization>, x: Customization) returns (k: int)
    requires x in b
    ensures 0 <= k < |b| && b[k] == x
  {
    if b[0] == x {
      k := 0;
    } else {
      assert x in b[1..];
      k := IndexOf(b[1..], x);
      k := k + 1;
    }
  }

  /** Taking out the element at `k` leaves a list with one fewer `b[k]`. */
  lemma MultisetRemove(b: seq<Customization>, k: int)
    requires 0 <= k < |b|
    ensures multiset(b) == multiset{b[k]} + multiset(b[..k] + b[k + 1..])
  {
    assert b == b[..k] + [b[k]] + b[k + 1..];
  }

  lemma MultisetCancel(m1: multiset<Customization>, m2: multiset<Customization>, x: Customization)
    requires multiset{x} + m1 == multiset{x} + m2
    ensures m1 == m2
  {
    assert forall y :: m1[y] == (multiset{x} + m1)[y] - multiset{x}[y];
  }

  /** The sum of prices does not depend on the order of the customizations. */
  lemma {:induction false} SumPermutation(a: seq<Customization>, b: seq<Customization>)
    requires multiset(a) == multiset(b)
    ensures Sum(a) == Sum(b)
    decreases |a|
  {
    if a == [] {
      assert |b| == |multiset(b)| == 0;
    } else {
      var x := a[0];
      assert x in multiset(b);
      var k := IndexOf(b, x);
      var rest := b[..k] + b[k + 1..];
      assert multiset(a[1..]) == multiset(rest) by {
        MultisetRemove(b, k);
        assert a == [x] + a[1..];
        MultisetCancel(multiset(a[1..]), multiset(rest), x);
      }
      SumPermutation(a[1..], rest);
      SumRemove(b, k);
    }
  }

  /** Reordering a line's customizations leaves its unit price unchanged. */
  lemma PriceIgnoresCustomizationOrder(item: CartLine, cs: seq<Customization>)
    requires multiset(cs) == multiset(CustomizationList(item))
    ensures TotalItemPrice(item.(customizations := Some(cs))) == TotalItemPrice(item)
  {
    SumPermutation(cs, CustomizationList(item));
  }

  // ---------------------------------------------------------------- image URL

  const ProjectQuery: string := "?project="

  /** `t` occurs in `s` starting at index `i`. */
  predicate OccursAt(s: string, t: string, i: int) {
    0 <= i && i + |t| <= |s| && s[i..i + |t|] == t
  }

  /** `s.includes(t)`: a scan for `t` at every starting position. */
  predicate Contains(s: string, t: string): (found: bool)
    ensures t == [] ==> found
    ensures found ==> |t| <= |s|
    decreases |s|
  {
    t <= s || (s != [] && Contains(s[1..], t))
  }

  /** An occurrence at any position is found by the scan. */
  lemma {:induction false} OccursThenContains(s: string, t: string, i: int)
    requires OccursAt(s, t, i)
    ensures Contains(s, t)
    decreases i
  {
    if i == 0 {
      assert s[..|t|] == t;
    } else {
      assert s[1..][i - 1..i - 1 + |t|] == s[i..i + |t|];
      OccursThenContains(s[1..], t, i - 1);
    }
  }

  /** What the scan finds is an occurrence, at the returned position. */
  lemma {:induction false} ContainsThenOccurs(s: string, t: string) returns (i: int)
    requires Contains(s, t)
    ensures OccursAt(s, t, i)
    decreases |s|
  {
    if t <= s {
      i := 0;
      assert s[..|t|] == t;
    } else {
      i := ContainsThenOccurs(s[1..], t);
      assert s[i + 1..i + 1 + |t|] == s[1..][i..i + |t|];
      i := i + 1;
    }
  }

  /** `Contains` finds exactly the occurrences `OccursAt` describes. */
  lemma ContainsIffOccurs(s: string, t: string)
    ensures Contains(s, t) <==> exists i :: OccursAt(s, t, i)
  {
    if Contains(s, t) {
      var i := ContainsThenOccurs(s, t);
    }
    if i :| OccursAt(s, t, i) {
      OccursThenContains(s, t, i);
    }
  }

  /** The normalised image URL: unchanged when it already names a project, else the query appended. */
  function NormalizeImageUrl(url: string, projectId: string): (r: string)
    ensures Contains(r, ProjectQuery)
    ensures url <= r
  {
    if Contains(url, ProjectQuery) then url
    else
      var r := url + ProjectQuery + projectId;
      assert OccursAt(r, ProjectQuery, |url|);
      ContainsIffOccurs(r, ProjectQuery);
      r
  }

  /** An URL that already carries `?project=` is returned as it is. */
  lemma KeepsProjectUrl(url: string, projectId: string)
    requires exists i :: OccursAt(url, ProjectQuery, i)
    ensures NormalizeImageUrl(url, projectId) == url
  {
    ContainsIffOccurs(url, ProjectQuery);
  }

  /** Any other URL gets `?project=` and the project id appended. */
  lemma AppendsProjectQuery(url: string, projectId: string)
    requires forall i :: !OccursAt(url, ProjectQuery, i)
    ensures NormalizeImageUrl(url, projectId) == url + "?project=" + projectId
  {
    ContainsIffOccurs(url, ProjectQuery);
  }

  /** Normalising twice, with any project id the second time, changes nothing. */
  lemma NormalizeIdempotent(url: string, projectId: string, otherId: string)
    ensures NormalizeImageUrl(NormalizeImageUrl(url, projectId), otherId) == NormalizeImageUrl(url, projectId)
  {
  }

  // ---------------------------------------------------------------- summary

  function Names(cs: seq<Customization>): (names: seq<string>)
    ensures |names| == |cs|
    ensures forall i :: 0 <= i < |cs| ==> names[i] == cs[i].name
  {
    if cs == [] then [] else [cs[0].name] + Names(cs[1..])
  }

  /** `names.join(', ')`. */
  function Join(names: seq<string>): (r: string)
    ensures names != [] ==> names[0] <= r
    ensures |names| >= 2 ==> names[0] + ", " <= r
  {
    if names == [] then ""
    else if |names| == 1 then names[0]
    else names[0] + ", " + Join(names[1..])
  }

  /**
   * The text shown under the line's price: `+ ` followed by the customization
   * names joined by `, `; nothing when the line has no customizations.
   */
  function Summary(item: CartLine): (r: Option<string>)
    ensures r.None? <==> CustomizationList(item) == []
  {
    if item.customizations.Some? && |item.customizations.value| > 0 then
      Some("+ " + Join(Names(item.customizations.value)))
    else
      None
  }

  /** Splits a text at every `, `; the left inverse of `Join` for names without commas. */
  function Split(s: string): (parts: seq<string>)
    ensures |parts| >= 1
  {
    if s == [] then [""]
    else if |s| >= 2 && s[0] == ',' && s[1] == ' ' then [""] + Split(s[2..])
    else
      var rest := Split(s[1..]);
      [[s[0]] + rest[0]] + rest[1..]
  }

  predicate NoComma(name: string) {
    forall i :: 0 <= i < |name| ==> name[i] != ','
  }

  lemma {:induction false} SplitAfterName(name: string, rest: string)
    requires NoComma(name)
    ensures Split(name + ", " + rest) == [name] + Split(rest)
  {
    if name == [] {
      assert name + ", " + rest == ", " + rest;
      assert (", " + rest)[2..] == rest;
    } else {
      var s := name + ", " + rest;
      assert s[1..] == name[1..] + ", " + rest;
      SplitAfterName(name[1..], rest);
      assert [s[0]] + name[1..] == name;
    }
  }

  lemma {:induction false} SplitName(name: string)
    requires NoComma(name)
    ensures Split(name) == [name]
  {
    if name != [] {
      SplitName(name[1..]);
      assert [name[0]] + name[1..] == name;
    }
  }

  /** When no name holds a comma, the joined names can be read back in order. */
  lemma {:induction false} SplitJoin(names: seq<string>)
    requires names != []
    requires forall i :: 0 <= i < |names| ==> NoComma(names[i])
    ensures Split(Join(names)) == names
  {
    if |names| == 1 {
      SplitName(names[0]);
    } else {
      SplitAfterName(names[0], Join(names[1..]));
      SplitJoin(names[1..]);
    }
  }

  /**
   * The summary reads `+ ` followed by the customization names, which can be
   * split back at `, ` into the list, in order, when no name holds a comma.
   */
  lemma SummaryReadsBack(item: CartLine)
    requires CustomizationList(item) != []
    requires forall i :: 0 <= i < |CustomizationList(item)| ==> NoComma(CustomizationList(item)[i].name)
    ensures Summary(item).Some?
    ensures Summary(item).value[..2] == "+ "
    ensures Split(Summary(item).value[2..]) == Names(CustomizationList(item))
  {
    var cs := CustomizationList(item);
    SplitJoin(Names(cs));
    assert Summary(item).value[2..] == Join(Names(cs));
  }

  // ---------------------------------------------------------------- store calls

  datatype CartAction = Decrease | Increase | Remove

  /** What a button of the line asks the cart store to do, and with which arguments. */
  datatype StoreCall = StoreCall(action: CartAction, id: string, customizations: seq<Customization>)

  /** The `onPress` handlers: the line's id and its customization list, `[]` when absent. */
  function OnPress(item: CartLine, action: CartAction): (call: StoreCall)
    ensures call.action == action && call.id == item.id
    ensures item.customizations.None? ==> call.customizations == []
    ensures item.customizations.Some? ==> call.customizations == item.customizations.value
  {
    StoreCall(action, item.id, CustomizationList(item))
  }

  /** The customizations a button passes to the store are exactly those priced on the line. */
  lemma StoreCallMatchesPrice(item: CartLine, action: CartAction)
    ensures TotalItemPrice(item) == item.price + Sum(OnPress(item, action).customizations)
  {
  }
}
