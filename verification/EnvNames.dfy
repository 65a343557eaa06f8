/** Configuration keys and the environment variables that set them: the name the
    documentation prints, and the key the loader makes of a name. */
module EnvNames {
  import opened GoStrings

  const PREFIX := "PL2O_"

  function Encode(key: string): string {
    ReplaceAll(key, ".", "__")
  }

  function Decode(text: string): string {
    ReplaceAll(text, "__", ".")
  }

  function EnvName(f: Fold, key: string): string {
    PREFIX + ToUpper(f, Encode(key))
  }

  function TrimPrefix(s: string, prefix: string): string {
    if StartsWith(s, prefix) then s[|prefix|..] else s
  }

  function EnvTransform(f: Fold, name: string): string {
    Decode(ToLower(f, TrimPrefix(name, PREFIX)))
  }

  /** No underscore is followed by an underscore or a dot. */
  predicate Separable(key: string) {
    !Contains(key, "__") && !Contains(key, "_.")
  }

  lemma EncodeStep(key: string)
    requires key != ""
    ensures Encode(key) == (if key[0] == '.' then "__" else [key[0]]) + Encode(key[1..])
  {
    assert StartsWith(key, ".") <==> key[0] == '.';
  }

  lemma DecodeStep(text: string)
    requires text != ""
    ensures |text| >= 2 && text[0] == '_' && text[1] == '_' ==> Decode(text) == "." + Decode(text[2..])
    ensures !(|text| >= 2 && text[0] == '_' && text[1] == '_') ==> Decode(text) == [text[0]] + Decode(text[1..])
  {
    assert StartsWith(text, "__") <==> |text| >= 2 && text[0] == '_' && text[1] == '_' by {
      if |text| >= 2 {
        assert text[..2] == [text[0], text[1]];
      }
    }
  }

  lemma SeparableStep(key: string)
    requires key != ""
    ensures Separable(key) <==>
      Separable(key[1..]) && !(|key| >= 2 && key[0] == '_' && (key[1] == '_' || key[1] == '.'))
  {
    if |key| >= 2 {
      assert key[..2] == [key[0], key[1]];
    }
  }

  /** Decoding from the left undoes encoding exactly on separable keys. */
  lemma {:induction false} DecodeEncode(key: string)
    ensures Decode(Encode(key)) == key <==> Separable(key)
    ensures key != "" ==> Encode(key) != ""
  {
    if key != "" {
      var rest := key[1..];
      DecodeEncode(rest);
      EncodeStep(key);
      SeparableStep(key);
      var text := Encode(key);
      DecodeStep(text);
      assert key == [key[0]] + rest;
      if key[0] == '.' {
        assert text[2..] == Encode(rest);
        assert Decode(text)[1..] == Decode(Encode(rest));
      } else {
        assert text[1..] == Encode(rest);
        if rest != "" {
          EncodeStep(rest);
          assert text[1] == if rest[0] == '.' then '_' else rest[0];
        }
        if key[0] == '_' && rest != "" && (rest[0] == '_' || rest[0] == '.') {
          assert Decode(text)[0] == '.';
        } else {
          assert Decode(text)[1..] == Decode(Encode(rest));
        }
      }
    }
  }

  predicate NoUpper(s: string) {
    forall i :: 0 <= i < |s| ==> !('A' <= s[i] <= 'Z')
  }

  lemma {:induction false} EncodeAscii(key: string)
    requires Ascii(key)
    ensures Ascii(Encode(key))
    ensures NoUpper(key) <==> NoUpper(Encode(key))
  {
    if key != "" {
      EncodeStep(key);
      EncodeAscii(key[1..]);
      var head := if key[0] == '.' then "__" else [key[0]];
      assert key == [key[0]] + key[1..];
      assert NoUpper(key) <==> NoUpper([key[0]]) && NoUpper(key[1..]);
      assert NoUpper(head + Encode(key[1..])) <==> NoUpper(head) && NoUpper(Encode(key[1..])) by {
        assert (head + Encode(key[1..]))[|head|..] == Encode(key[1..]);
        assert forall i :: 0 <= i < |head| ==> (head + Encode(key[1..]))[i] == head[i];
      }
    }
  }

  lemma {:induction false} DecodeNoUpper(text: string)
    requires NoUpper(text)
    ensures NoUpper(Decode(text))
    decreases |text|
  {
    if text != "" {
      DecodeStep(text);
      if |text| >= 2 && text[0] == '_' && text[1] == '_' {
        DecodeNoUpper(text[2..]);
      } else {
        DecodeNoUpper(text[1..]);
      }
    }
  }

  /** Upper- and then lower-casing an ASCII text lower-cases it. */
  lemma UpperThenLower(f: Fold, text: string)
    requires Ascii(text)
    ensures NoUpper(ToLower(f, ToUpper(f, text)))
    ensures NoUpper(text) ==> ToLower(f, ToUpper(f, text)) == text
  {
    var upper := ToUpper(f, text);
    assert Ascii(upper);
    assert |ToLower(f, upper)| == |text|;
  }

  /** For an ASCII key without capitals the loader decodes what was encoded. */
  lemma EnvTransformOfName(f: Fold, key: string)
    requires Ascii(key)
    ensures NoUpper(EnvTransform(f, EnvName(f, key)))
    ensures NoUpper(key) ==> EnvTransform(f, EnvName(f, key)) == Decode(Encode(key))
  {
    var text := Encode(key);
    EncodeAscii(key);
    UpperThenLower(f, text);
    var name := EnvName(f, key);
    assert name[..|PREFIX|] == PREFIX && name[|PREFIX|..] == ToUpper(f, text);
    DecodeNoUpper(ToLower(f, ToUpper(f, text)));
  }

  /** For every ASCII key, the loader turns the documented name back into the key
      exactly when the key has no capital and no underscore before an underscore
      or a dot. */
  lemma EnvRoundTripIff(f: Fold, key: string)
    requires Ascii(key)
    ensures EnvTransform(f, EnvName(f, key)) == key <==> NoUpper(key) && Separable(key)
  {
    EnvTransformOfName(f, key);
    DecodeEncode(key);
  }

  /** Hence no two such keys share a name. */
  lemma EnvNamesDistinct(f: Fold, a: string, b: string)
    requires Ascii(a) && NoUpper(a) && Separable(a)
    requires Ascii(b) && NoUpper(b) && Separable(b)
    requires EnvName(f, a) == EnvName(f, b)
    ensures a == b
  {
    EnvRoundTripIff(f, a);
    EnvRoundTripIff(f, b);
  }

  /** Encoding undoes decoding on texts without dots. */
  lemma {:induction false} EncodeDecode(text: string)
    requires '.' !in text
    ensures Encode(Decode(text)) == text
    decreases |text|
  {
    if text != "" {
      DecodeStep(text);
      EncodeStep(Decode(text));
      if |text| >= 2 && text[0] == '_' && text[1] == '_' {
        EncodeDecode(text[2..]);
        assert Decode(text)[1..] == Decode(text[2..]);
        assert text == "__" + text[2..];
      } else {
        EncodeDecode(text[1..]);
        assert Decode(text)[1..] == Decode(text[1..]);
        assert text == [text[0]] + text[1..];
      }
    }
  }

  lemma {:induction false} EncodeHasNoDots(key: string)
    ensures '.' !in Encode(key)
  {
    if key != "" {
      EncodeStep(key);
      EncodeHasNoDots(key[1..]);
    }
  }

  /** The condition is needed for every key: one outside it shares its name with
      another key, the one inside that the loader takes the name to mean. */
  lemma EnvNamesCollide(f: Fold, key: string)
    requires Ascii(key) && NoUpper(key) && !Separable(key)
    ensures
      var other := EnvTransform(f, EnvName(f, key));
      other != key && Separable(other) && EnvName(f, other) == EnvName(f, key)
  {
    var other := EnvTransform(f, EnvName(f, key));
    EnvTransformOfName(f, key);
    DecodeEncode(key);
    EncodeHasNoDots(key);
    EncodeDecode(Encode(key));
    DecodeEncode(other);
  }

  /** A documented name starts with the prefix and holds no lower-case letter and no dot. */
  lemma NameIsUpper(f: Fold, key: string)
    requires Ascii(key)
    ensures "PL2O_" <= EnvName(f, key)
    ensures forall i :: 0 <= i < |EnvName(f, key)| ==> !('a' <= EnvName(f, key)[i] <= 'z') && EnvName(f, key)[i] != '.'
  {
    var text := Encode(key);
    EncodeAscii(key);
    EncodeHasNoDots(key);
    var upper := ToUpper(f, text);
    assert |upper| == |text| && forall i :: 0 <= i < |text| ==> text[i] in text;
  }

  /** Only the prefix is taken off a name: any other name is read as it stands. */
  lemma PrefixIsTakenOff(f: Fold, name: string)
    ensures EnvTransform(f, "PL2O_" + name) == ReplaceAll(ToLower(f, name), "__", ".")
    ensures !("PL2O_" <= name) ==> EnvTransform(f, name) == ReplaceAll(ToLower(f, name), "__", ".")
  {
    assert ("PL2O_" + name)[..5] == "PL2O_" && ("PL2O_" + name)[5..] == name;
  }
}
