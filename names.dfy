/** The two string rules the template generator applies to a component
    reference's name, and the keys of the fixed resources it emits.

    - the path segment under which a component file is looked up is the name
      lower-cased with every space turned into a hyphen;
    - the CloudFormation resource key of a component is the literal
      "Component" followed by the name with every space removed.

    Lower-casing covers ASCII letters only. */
module Names {

  const SPACE := ' '
  const HYPHEN := '-'
  const COMPONENT_PREFIX := "Component"

  /** Keys of the five resources every template holds besides its components. */
  const IMAGE_RECIPE_KEY := "ImageRecipe"
  const INFRASTRUCTURE_KEY := "InfrastructureConfiguration"
  const SECURITY_GROUP_KEY := "ImageBuilderSecurityGroup"
  const DISTRIBUTION_KEY := "DistributionConfiguration"
  const PIPELINE_KEY := "ImagePipeline"

  const FIXED_KEYS: set<string> :=
    {IMAGE_RECIPE_KEY, INFRASTRUCTURE_KEY, SECURITY_GROUP_KEY, DISTRIBUTION_KEY, PIPELINE_KEY}

  predicate IsUpper(c: char) {
    'A' <= c <= 'Z'
  }

  /** ASCII lower-casing of one character. */
  function LowerChar(c: char): (r: char)
    ensures !IsUpper(r)
    ensures IsUpper(c) ==> r as int == c as int + 32 && 'a' <= r <= 'z'
    ensures !IsUpper(c) ==> r == c
  {
    if IsUpper(c) then (c as int + 32) as char else c
  }

  /** `s.lower()`, restricted to ASCII letters. */
  function Lower(s: string): (r: string)
    ensures |r| == |s|
    ensures forall i :: 0 <= i < |s| ==> r[i] == LowerChar(s[i])
  {
    if s == [] then [] else [LowerChar(s[0])] + Lower(s[1..])
  }

  /** `s.replace(a, b)` for one-character strings `a` and `b`. */
  function ReplaceChar(s: string, a: char, b: char): (r: string)
    ensures |r| == |s|
    ensures forall i :: 0 <= i < |s| ==> r[i] == if s[i] == a then b else s[i]
  {
    if s == [] then [] else [if s[0] == a then b else s[0]] + ReplaceChar(s[1..], a, b)
  }

  /** `s.replace(c, "")`: every occurrence of `c` dropped, the rest kept in order. */
  function RemoveChar(s: string, c: char): (r: string)
    ensures c !in r
    ensures |r| <= |s|
    ensures c !in s ==> r == s
  {
    if s == [] then []
    else (if s[0] == c then [] else [s[0]]) + RemoveChar(s[1..], c)
  }

  /** Removing `c` keeps every other character of `s` and adds none. */
  lemma {:induction false} RemoveCharMembers(s: string, c: char)
    ensures forall x :: x in RemoveChar(s, c) <==> x in s && x != c
  {
    if s != [] {
      RemoveCharMembers(s[1..], c);
      assert s == [s[0]] + s[1..];
    }
  }

  /** Removing `c` from a concatenation removes it from each part, so
      together with `RemoveCharSingle` the result is fixed character by
      character: the kept characters stay in order and keep their
      multiplicity. */
  lemma {:induction false} RemoveCharAppend(s: string, t: string, c: char)
    ensures RemoveChar(s + t, c) == RemoveChar(s, c) + RemoveChar(t, c)
  {
    if s == [] {
      assert s + t == t;
    } else {
      var head := if s[0] == c then [] else [s[0]];
      assert (s + t)[0] == s[0] && (s + t)[1..] == s[1..] + t;
      calc {
        RemoveChar(s + t, c);
        head + RemoveChar(s[1..] + t, c);
        { RemoveCharAppend(s[1..], t, c); }
        head + (RemoveChar(s[1..], c) + RemoveChar(t, c));
        (head + RemoveChar(s[1..], c)) + RemoveChar(t, c);
        RemoveChar(s, c) + RemoveChar(t, c);
      }
    }
  }

  /** On one character, `c` is dropped and anything else kept. */
  lemma RemoveCharSingle(x: char, c: char)
    ensures RemoveChar([x], c) == if x == c then [] else [x]
  {
    assert [x][1..] == [];
  }

  /** The path segment a component name is looked up under:
      `name.lower().replace(" ", "-")`. */
  function NormalizeName(name: string): (r: string)
    ensures |r| == |name|
    ensures forall i :: 0 <= i < |name| ==>
              r[i] == if name[i] == SPACE then HYPHEN else LowerChar(name[i])
    ensures SPACE !in r
    ensures forall i :: 0 <= i < |r| ==> !IsUpper(r[i])
  {
    ReplaceChar(Lower(name), SPACE, HYPHEN)
  }

  /** The resource key of a component: `f"Component{name.replace(' ', '')}"`. */
  function ResourceKey(name: string): (r: string)
    ensures |r| >= |COMPONENT_PREFIX| && r[..|COMPONENT_PREFIX|] == COMPONENT_PREFIX
    ensures r[|COMPONENT_PREFIX|..] == RemoveChar(name, SPACE)
    ensures SPACE !in r
    ensures SPACE !in name ==> r == COMPONENT_PREFIX + name
  {
    COMPONENT_PREFIX + RemoveChar(name, SPACE)
  }

  /** Normalising an already normalised name changes nothing. */
  lemma {:induction false} NormalizeNameIdempotent(name: string)
    ensures NormalizeName(NormalizeName(name)) == NormalizeName(name)
  {
    var once := NormalizeName(name);
    var twice := NormalizeName(once);
    forall i | 0 <= i < |once| ensures twice[i] == once[i] {
      assert once[i] != SPACE;
      assert !IsUpper(once[i]);
    }
  }

  /** Two names share a resource key exactly when they agree once their
      spaces are removed. */
  lemma ResourceKeysCollide(a: string, b: string)
    ensures ResourceKey(a) == ResourceKey(b) <==> RemoveChar(a, SPACE) == RemoveChar(b, SPACE)
  {
    if ResourceKey(a) == ResourceKey(b) {
      calc {
        RemoveChar(a, SPACE);
        ResourceKey(a)[|COMPONENT_PREFIX|..];
        ResourceKey(b)[|COMPONENT_PREFIX|..];
        RemoveChar(b, SPACE);
      }
    }
  }

  /** A component's resource key is never one of the five fixed keys: each
      of those starts with a letter other than 'C'. */
  lemma ResourceKeyNotFixed(name: string)
    ensures ResourceKey(name) !in FIXED_KEYS
  {
    var k := ResourceKey(name);
    assert k[0] == COMPONENT_PREFIX[0] == 'C';
    forall f | f in FIXED_KEYS ensures f[0] != 'C' { }
  }

  /** The five fixed keys are distinct. */
  lemma FixedKeysCount()
    ensures |FIXED_KEYS| == 5
  {
    assert |IMAGE_RECIPE_KEY| == 11 && |PIPELINE_KEY| == 13 && |INFRASTRUCTURE_KEY| == 27;
    assert |SECURITY_GROUP_KEY| == 25 && |DISTRIBUTION_KEY| == 25;
    assert SECURITY_GROUP_KEY[0] != DISTRIBUTION_KEY[0];
    var two := {IMAGE_RECIPE_KEY, PIPELINE_KEY};
    var three := two + {INFRASTRUCTURE_KEY};
    var four := three + {SECURITY_GROUP_KEY};
    assert FIXED_KEYS == four + {DISTRIBUTION_KEY};
  }

  /** Normalisation on the name "Nginx Setup". */
  lemma NormalizeNginxSetup(name: string)
    requires name == "Nginx Setup"
    ensures NormalizeName(name) == "nginx-setup"
  {
    var r := NormalizeName(name);
    forall i | 0 <= i < |name| ensures r[i] == "nginx-setup"[i] {
      assert name[i] == SPACE <==> i == 5;
    }
  }

  /** The resource key of "A B" is "ComponentAB", and "AB" collides with it. */
  lemma ResourceKeyOfSpacedName()
    ensures ResourceKey("A B") == "ComponentAB"
    ensures ResourceKey("AB") == ResourceKey("A B")
  {
    assert RemoveChar("A B", SPACE) == "AB" by {
      assert "A B"[1..] == " B";
      assert " B"[1..] == "B";
      assert "B"[1..] == [];
    }
    assert RemoveChar("AB", SPACE) == "AB";
  }
}
