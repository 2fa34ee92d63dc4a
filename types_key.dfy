/** types/key.c: `createKey`, the same tagged key as deprecated/types/key.c builds. */
module TypesKey {
  import opened CKeys

  /**
   * `createKey`: a new key object with the requested tag, holding a copy of the integer or a
   * freshly allocated copy of the string.
   */
  method CreateKey(tag: KeyType, p: Pointee) returns (r: Key)
    requires Matches(tag, p)
    ensures fresh(r) && r.tag == tag
    ensures tag == TypeInt ==> r.value == IntV(p.i)
    ensures tag == TypeString ==> r.value.StringV? && fresh(r.value.stringV) && r.value.stringV.text == p.s.text
  {
    r := CKeys.CreateKey(tag, p);
  }
}
