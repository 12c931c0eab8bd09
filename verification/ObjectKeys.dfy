/** Keys of the object bucket: a blob's prefix, a slash, a chunk name. */
module ObjectKeys {
  import opened Wrappers

  /** The part of an object key before its first slash, or the whole key. */
  function R2Prefix(key: string): string {
    var slash := FirstIndex(key, (c: char) => c == '/');
    if slash == |key| then key else key[..slash]
  }

  /** The key an uploaded chunk is stored under. */
  function ObjectKey(prefix: string, chunk: string): string { prefix + "/" + chunk }

  lemma PrefixOfObject(prefix: string, chunk: string)
    requires '/' !in prefix
    ensures R2Prefix(ObjectKey(prefix, chunk)) == prefix
  {
    var key := ObjectKey(prefix, chunk);
    var slash := FirstIndex(key, (c: char) => c == '/');
    assert key[|prefix|] == '/';
    assert forall j | 0 <= j < |prefix| :: key[j] == prefix[j] && prefix[j] in prefix;
    assert slash == |prefix|;
  }

  lemma ObjectKeyInjective(prefix: string, a: string, b: string)
    ensures ObjectKey(prefix, a) == ObjectKey(prefix, b) <==> a == b
  {
    assert ObjectKey(prefix, a)[|prefix| + 1..] == a && ObjectKey(prefix, b)[|prefix| + 1..] == b;
  }
}
