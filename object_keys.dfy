/** The object-storage keys the upload handlers build: a folder, the id of the record the
    file belongs to, and a file name made of the upload instant and the client's name,
    joined by `/`. */
module ObjectKeys {
  import opened Text

  /** `${folder}/${owner}/${Date.now()}_${originalname}`. */
  function StorageKey(folder: string, owner: string, now: nat, name: string): string
  {
    folder + "/" + owner + "/" + FileStamp(now, name)
  }

  /** `${Date.now()}_${originalname}`. */
  function FileStamp(now: nat, name: string): string
  {
    Decimal(now) + "_" + name
  }

  /** A decimal numeral holds neither a slash nor an underscore. */
  lemma DecimalPunctuationFree(n: nat)
    ensures '/' !in Decimal(n) && '_' !in Decimal(n)
  {
    var d := Decimal(n);
    assert forall k :: 0 <= k < |d| ==> IsDigit(d[k]);
  }

  /** When neither the owner id nor the client's file name contains a slash, the key splits
      back into its folder, its owner and its file name, and `key.split('/').pop()` is the
      file name. So two uploads for different owners, or at different instants, never
      share a key. */
  lemma KeyParts(folder: string, owner: string, now: nat, name: string)
    requires '/' !in folder && '/' !in owner && '/' !in name
    ensures Split(StorageKey(folder, owner, now, name), '/') == [folder, owner, FileStamp(now, name)]
    ensures LastSegment(StorageKey(folder, owner, now, name), '/') == FileStamp(now, name)
  {
    var stamp := FileStamp(now, name);
    DecimalPunctuationFree(now);
    assert '/' !in stamp by {
      assert stamp == Decimal(now) + "_" + name;
    }
    assert StorageKey(folder, owner, now, name) == folder + ['/'] + (owner + ['/'] + stamp);
    SplitWithoutSeparator(stamp, '/');
    SplitAfterFirst(owner, stamp, '/');
    SplitAfterFirst(folder, owner + ['/'] + stamp, '/');
  }

  /** The instant is read back from the key's file name: the digits before the first `_`. */
  lemma StampPrefix(now: nat, name: string)
    ensures Split(FileStamp(now, name), '_')[0] == Decimal(now)
    ensures DecimalValue(Decimal(now)) == now
  {
    DecimalPunctuationFree(now);
    assert FileStamp(now, name) == Decimal(now) + ['_'] + name;
    SplitAfterFirst(Decimal(now), name, '_');
    DecimalRoundTrip(now);
  }

  /** Distinct owners, or distinct instants, give distinct keys. */
  lemma KeysDistinct(folder: string, o1: string, t1: nat, n1: string, o2: string, t2: nat, n2: string)
    requires '/' !in folder && '/' !in o1 && '/' !in n1 && '/' !in o2 && '/' !in n2
    requires o1 != o2 || t1 != t2
    ensures StorageKey(folder, o1, t1, n1) != StorageKey(folder, o2, t2, n2)
  {
    KeyParts(folder, o1, t1, n1);
    KeyParts(folder, o2, t2, n2);
    if StorageKey(folder, o1, t1, n1) == StorageKey(folder, o2, t2, n2) {
      assert o1 == o2;
      assert FileStamp(t1, n1) == FileStamp(t2, n2);
      StampPrefix(t1, n1);
      StampPrefix(t2, n2);
      assert false;
    }
  }
}
