/**
  How a phone key is turned into the name of the JSON file holding its record
  (`get_file_path`), and how the month scan turns a file name back into a
  phone (`file.replace(".json", "")`).
 */
module FileNames {
  import opened Text

  /** The directory holding one JSON file per customer. */
  const DataDir: string := "data/bills"

  const JsonSuffix: string := ".json"

  /** The name, inside `DataDir`, of the file holding `phone`'s record. */
  function FileName(phone: string): (f: string)
    ensures EndsWith(f, JsonSuffix)
    ensures |f| == |phone| + |JsonSuffix|
  {
    phone + JsonSuffix
  }

  /** `get_file_path`: the data directory joined with the file name. */
  function FilePath(phone: string): (path: string)
    ensures |DataDir| + 1 < |path| && path[..|DataDir| + 1] == DataDir + "/"
    ensures EndsWith(path, JsonSuffix)
  {
    DataDir + "/" + FileName(phone)
  }

  /** The phone whose record a `.json` file holds: its name without the suffix. */
  function StoredPhone(file: string): string
    requires EndsWith(file, JsonSuffix)
  {
    file[..|file| - |JsonSuffix|]
  }

  /** The phone column the month scan reports for a file, as the source computes it. */
  function PhoneOf(file: string): (phone: string)
    ensures |phone| <= |file|
    ensures !Contains(file, JsonSuffix) ==> phone == file
    ensures Contains(file, JsonSuffix) ==> |phone| <= |file| - |JsonSuffix|
  {
    ReplaceAll(file, JsonSuffix, "")
  }

  /** Distinct phones are kept in distinct files, so the directory is a map keyed by phone. */
  lemma FilePathInjective(p: string, q: string)
    ensures FilePath(p) == FilePath(q) <==> p == q
  {
    if FilePath(p) == FilePath(q) {
      var n := |DataDir + "/"|;
      assert FileName(p) == FilePath(p)[n..];
      assert FileName(q) == FilePath(q)[n..];
      assert p == FileName(p)[..|p|];
      assert q == FileName(q)[..|q|];
    }
  }

  /** File names of stored records and phones are in one-to-one correspondence. */
  lemma StoredPhoneInverse(phone: string, file: string)
    ensures StoredPhone(FileName(phone)) == phone
    ensures EndsWith(file, JsonSuffix) ==> FileName(StoredPhone(file)) == file
  {
    assert FileName(phone)[..|phone|] == phone;
  }

  /**
    Removing every ".json" from a phone followed by ".json" removes the final
    suffix and otherwise acts on the phone alone: no occurrence of ".json" can
    straddle the boundary, because no proper suffix of ".json" is a prefix of it.
   */
  lemma {:induction false} PhoneOfFileName(phone: string)
    ensures PhoneOf(FileName(phone)) == ReplaceAll(phone, JsonSuffix, "")
    decreases |phone|
  {
    var s := phone + JsonSuffix;
    if |phone| == 0 {
      assert s == JsonSuffix;
      assert s[|JsonSuffix|..] == [];
    } else if |phone| < |JsonSuffix| {
      assert s[|phone|] == '.';
      assert JsonSuffix[|phone|] != '.';
      assert s[..|JsonSuffix|] != JsonSuffix;
      assert s[1..] == phone[1..] + JsonSuffix;
      PhoneOfFileName(phone[1..]);
      assert ReplaceAll(phone[1..], JsonSuffix, "") == phone[1..];
      assert ReplaceAll(phone, JsonSuffix, "") == phone;
      assert [phone[0]] + phone[1..] == phone;
    } else {
      assert s[..|JsonSuffix|] == phone[..|JsonSuffix|];
      if phone[..|JsonSuffix|] == JsonSuffix {
        assert s[|JsonSuffix|..] == phone[|JsonSuffix|..] + JsonSuffix;
        PhoneOfFileName(phone[|JsonSuffix|..]);
      } else {
        assert s[1..] == phone[1..] + JsonSuffix;
        PhoneOfFileName(phone[1..]);
      }
    }
  }

  /**
    The scan reports the phone a record was saved under exactly when that
    phone does not itself contain ".json".
   */
  lemma PhoneOfFileNameRoundTrip(phone: string)
    ensures PhoneOf(FileName(phone)) == phone <==> !Contains(phone, JsonSuffix)
  {
    PhoneOfFileName(phone);
  }

  /** A concrete case: the record saved under "1.json2" is reported as phone "12". */
  lemma PhoneWithSuffixInside()
    ensures FileName("1.json2") == "1.json2.json"
    ensures PhoneOf(FileName("1.json2")) == "12"
  {
    PhoneOfFileName("1.json2");
    assert ReplaceAll("2", JsonSuffix, "") == "2";
    assert ".json2"[..|JsonSuffix|] == JsonSuffix && ".json2"[|JsonSuffix|..] == "2";
    assert ReplaceAll(".json2", JsonSuffix, "") == "2";
    assert "1.json2"[..|JsonSuffix|] != JsonSuffix && "1.json2"[1..] == ".json2";
    assert ReplaceAll("1.json2", JsonSuffix, "") == "12";
  }
}
