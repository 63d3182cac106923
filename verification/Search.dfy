/** Finding one sequence in another, for the console's bytes and for text. */
module Search {
  predicate At<T(==)>(hay: seq<T>, needle: seq<T>, i: nat) {
    i + |needle| <= |hay| && hay[i..i + |needle|] == needle
  }

  /** needle in hay */
  predicate Contains<T(==)>(hay: seq<T>, needle: seq<T>) {
    exists i :: 0 <= i <= |hay| && At(hay, needle, i)
  }

  lemma Found<T>(hay: seq<T>, needle: seq<T>, i: nat)
    requires i + |needle| <= |hay| && hay[i..i + |needle|] == needle
    ensures Contains(hay, needle)
  {
    assert At(hay, needle, i);
  }

  lemma FindIt<T>(hay: seq<T>, needle: seq<T>) returns (i: nat)
    requires Contains(hay, needle)
    ensures i + |needle| <= |hay| && hay[i..i + |needle|] == needle
  {
    i :| 0 <= i <= |hay| && At(hay, needle, i);
  }

  lemma PrefixFound<T>(hay: seq<T>, needle: seq<T>)
    ensures needle <= hay ==> Contains(hay, needle)
  {
    if needle <= hay {
      assert At(hay, needle, 0);
    }
  }

  lemma LacksAt<T>(hay: seq<T>, needle: seq<T>, k: nat, i: nat)
    requires k < |needle| && needle[k] !in hay && i + |needle| <= |hay|
    ensures hay[i..i + |needle|] != needle
  {
    assert hay[i..i + |needle|][k] == hay[i + k];
  }

  lemma LacksNeedle<T>(hay: seq<T>, needle: seq<T>, k: nat)
    requires k < |needle| && needle[k] !in hay
    ensures !Contains(hay, needle)
  {
    if Contains(hay, needle) {
      var i := FindIt(hay, needle);
      LacksAt(hay, needle, k, i);
    }
  }
}
