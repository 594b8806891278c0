/** The ingredient list's badge (`getIngredienteIcon`,
    src/pages/main/menu/ingredientes/index.tsx): the lower-cased name is
    searched for keywords, group by group, and the first group with a hit
    decides the badge. */
module Ingredientes {
  import opened Prelude

  datatype Tipo = Verdura | Carne | Lacteo | Hierba | Otro

  /** The `tipo` text shown on the badge. */
  function Label(t: Tipo): (r: string)
    ensures r == "Otro" <==> t == Otro
  {
    match t
    case Verdura => "Verdura"
    case Carne => "Carne"
    case Lacteo => "Lácteo"
    case Hierba => "Hierba"
    case Otro => "Otro"
  }

  /** The icon component and its colour class. */
  datatype Icon = Icon(component: string, className: string)

  function IconOf(t: Tipo): (r: Icon)
    ensures r.className == "text-muted-foreground" <==> t == Otro
  {
    match t
    case Verdura => Icon("Carrot", "text-green-600")
    case Carne => Icon("Drumstick", "text-red-600")
    case Lacteo => Icon("Milk", "text-yellow-500")
    case Hierba => Icon("Leaf", "text-emerald-600")
    case Otro => Icon("Pizza", "text-muted-foreground")
  }

  /** Each group has its own text and its own icon. */
  lemma BadgesDistinct(t1: Tipo, t2: Tipo)
    ensures Label(t1) == Label(t2) ==> t1 == t2
    ensures IconOf(t1) == IconOf(t2) ==> t1 == t2
  {
    assert |Label(t1)| == |Label(t2)| && Label(t1)[0] == Label(t2)[0] ==> t1 == t2;
    assert IconOf(t1).component[0] == IconOf(t2).component[0] ==> t1 == t2;
  }

  const VerduraWords: seq<string> := ["zanahoria", "lechuga", "tomate", "papa", "cebolla"]
  const CarneWords: seq<string> := ["pollo", "res", "carne", "cerdo", "chuleta"]
  const LacteoWords: seq<string> := ["queso", "leche", "mantequilla", "yogur"]
  const HierbaWords: seq<string> := ["albahaca", "cilantro", "oregano", "hierbabuena"]

  /** `words.some(v => s.includes(v))` */
  function AnyIncluded(s: string, words: seq<string>): (r: bool)
    ensures r <==> exists i :: 0 <= i < |words| && Contains(s, words[i])
  {
    if words == [] then false
    else Contains(s, words[0]) || AnyIncluded(s, words[1..])
  }

  /** The badge's group for an ingredient name. The groups are tried in
      order: a name is put in a group exactly when it contains one of that
      group's keywords and none of an earlier group's. */
  function Classify(nombre: string): (t: Tipo)
    ensures var lower := ToLower(nombre);
      && (t == Verdura <==> exists i :: 0 <= i < |VerduraWords| && Contains(lower, VerduraWords[i]))
      && (t == Carne <==>
            !AnyIncluded(lower, VerduraWords) &&
            exists i :: 0 <= i < |CarneWords| && Contains(lower, CarneWords[i]))
      && (t == Lacteo <==>
            !AnyIncluded(lower, VerduraWords) && !AnyIncluded(lower, CarneWords) &&
            exists i :: 0 <= i < |LacteoWords| && Contains(lower, LacteoWords[i]))
      && (t == Hierba <==>
            !AnyIncluded(lower, VerduraWords) && !AnyIncluded(lower, CarneWords) &&
            !AnyIncluded(lower, LacteoWords) &&
            exists i :: 0 <= i < |HierbaWords| && Contains(lower, HierbaWords[i]))
  {
    var lower := ToLower(nombre);
    if AnyIncluded(lower, VerduraWords) then Verdura
    else if AnyIncluded(lower, CarneWords) then Carne
    else if AnyIncluded(lower, LacteoWords) then Lacteo
    else if AnyIncluded(lower, HierbaWords) then Hierba
    else Otro
  }

  /** Letter case does not matter: a name and its lower-cased form get the
      same badge. */
  lemma ClassifyIgnoresCase(nombre: string)
    ensures Classify(ToLower(nombre)) == Classify(nombre)
  {
    ToLowerIdempotent(nombre);
  }

  /** Lower-casing a concatenation lower-cases each part. */
  lemma ToLowerConcat(a: string, b: string)
    ensures ToLower(a + b) == ToLower(a) + ToLower(b)
  {
    var l, r := ToLower(a + b), ToLower(a) + ToLower(b);
    forall i | 0 <= i < |a + b| ensures l[i] == r[i] {
      if i < |a| {
        assert (a + b)[i] == a[i];
      } else {
        assert (a + b)[i] == b[i - |a|];
      }
    }
  }

  /** An occurrence survives adding text on either side. */
  lemma ContainsExtend(pre: string, s: string, post: string, sub: string)
    requires Contains(s, sub)
    ensures Contains(pre + s + post, sub)
  {
    ContainsIff(s, sub);
    var i :| 0 <= i <= |s| && StartsWith(s[i..], sub);
    var t := pre + s + post;
    assert t[|pre| + i..][..|sub|] == s[i..][..|sub|];
    ContainsAt(t, sub, |pre| + i);
  }

  /** A vegetable keyword wins wherever it appears: once a name reads as a
      vegetable, adding words before or after it keeps it a vegetable. */
  lemma VerduraSurvivesAddedWords(pre: string, nombre: string, post: string)
    requires Classify(nombre) == Verdura
    ensures Classify(pre + nombre + post) == Verdura
  {
    var lower := ToLower(nombre);
    var i :| 0 <= i < |VerduraWords| && Contains(lower, VerduraWords[i]);
    ToLowerConcat(pre, nombre);
    ToLowerConcat(pre + nombre, post);
    ContainsExtend(ToLower(pre), lower, ToLower(post), VerduraWords[i]);
    assert ToLower(pre + nombre + post) == ToLower(pre) + lower + ToLower(post);
  }

  /** "Tomate y pollo" names a meat too, but the vegetable group is tried first. */
  lemma TomateYPolloIsVerdura()
    ensures Classify("Tomate y pollo") == Verdura
  {
    var lower := ToLower("Tomate y pollo");
    assert lower == "tomate" + " y pollo";
    ContainsInfix("", "tomate", " y pollo");
    assert "" + "tomate" + " y pollo" == lower;
    assert VerduraWords[2] == "tomate";
  }

  /** Keywords match anywhere in the name, so "Papaya" contains "papa". */
  lemma PapayaIsVerdura()
    ensures Classify("Papaya") == Verdura
  {
    var lower := ToLower("Papaya");
    assert lower == "papa" + "ya";
    ContainsInfix("", "papa", "ya");
    assert "" + "papa" + "ya" == lower;
    assert VerduraWords[3] == "papa";
  }

  /** A keyword longer than the name cannot occur in it. */
  lemma {:induction false} LongerNotContained(s: string, sub: string)
    requires |sub| > |s|
    ensures !Contains(s, sub)
    decreases |s|
  {
    if |s| > 0 {
      LongerNotContained(s[1..], sub);
    }
  }

  /** A keyword whose first letter does not appear in the name cannot occur in it. */
  lemma {:induction false} FirstLetterMissingNotContained(s: string, sub: string)
    requires sub != [] && sub[0] !in s
    ensures !Contains(s, sub)
    decreases |s|
  {
    if |s| > 0 {
      assert s[0] in s;
      assert forall c :: c in s[1..] ==> c in s;
      FirstLetterMissingNotContained(s[1..], sub);
    }
  }

  /** "Fresas" is not a meat, yet "fresas" contains "res", the beef keyword. */
  lemma FresasIsCarne()
    ensures Classify("Fresas") == Carne
  {
    var lower := ToLower("Fresas");
    assert lower == "fresas";
    forall i | 0 <= i < |VerduraWords| ensures !Contains(lower, VerduraWords[i]) {
      if |VerduraWords[i]| > |lower| {
        LongerNotContained(lower, VerduraWords[i]);
      } else {
        assert VerduraWords[i][0] !in lower;
        FirstLetterMissingNotContained(lower, VerduraWords[i]);
      }
    }
    assert lower == "f" + "res" + "as";
    ContainsInfix("f", "res", "as");
    assert CarneWords[1] == "res";
  }
}
