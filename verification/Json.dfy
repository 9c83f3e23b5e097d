/** The compact JSON lists Admin writes and measures, a character for each byte. */
module Json {

  /** A list's items with a comma between each two. */
  function Items(list: seq<string>): string {
    if |list| == 0 then "" else if |list| == 1 then list[0]
    else Items(list[..|list| - 1]) + "," + list[|list| - 1]
  }

  /** Two lists written after each other have one more comma between them. */
  lemma {:induction false} ItemsJoin(left: seq<string>, right: seq<string>)
    requires left != [] && right != []
    ensures Items(left + right) == Items(left) + "," + Items(right)
  {
    assert (left + right)[..|left + right| - 1] == left + right[..|right| - 1];
    if |right| > 1 {
      ItemsJoin(left, right[..|right| - 1]);
    }
  }

  /** The bytes of the items alone. */
  function Bytes(list: seq<string>): nat {
    if list == [] then 0 else Bytes(list[..|list| - 1]) + |list[|list| - 1]|
  }

  lemma {:induction false} BytesSplit(left: seq<string>, right: seq<string>)
    ensures Bytes(left + right) == Bytes(left) + Bytes(right)
  {
    if right == [] {
      assert left + right == left;
    } else {
      assert (left + right)[..|left + right| - 1] == left + right[..|right| - 1];
      BytesSplit(left, right[..|right| - 1]);
    }
  }

  lemma {:induction false} ItemsLength(list: seq<string>)
    ensures |Items(list)| == Bytes(list) + (if |list| > 0 then |list| - 1 else 0)
  {
    if |list| > 0 {
      ItemsLength(list[..|list| - 1]);
    }
  }

  /** How a further item changes the length of a list. */
  lemma ItemsAppend(list: seq<string>, item: string)
    ensures |Items(list + [item])| == |Items(list)| + |item| + (if list != [] then 1 else 0)
  {
    assert (list + [item])[..|list|] == list;
  }

  /** A part of a list takes no more bytes than the list. */
  lemma PartIsShorter(list: seq<string>, i: nat, j: nat, i': nat, j': nat)
    requires i <= i' < j' <= j <= |list|
    ensures |Items(list[i'..j'])| <= |Items(list[i..j])|
  {
    assert list[i..j] == list[i..i'] + (list[i'..j'] + list[j'..j]);
    BytesSplit(list[i..i'], list[i'..j'] + list[j'..j]);
    BytesSplit(list[i'..j'], list[j'..j]);
    ItemsLength(list[i..j]);
    ItemsLength(list[i'..j']);
  }
}
