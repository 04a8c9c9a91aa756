/**
 * The COLLADA profiles an effect can be written for, their names as read
 * and printed, and the <profile_*> element name that carries them.
 */
module ColladaProfileModel {
  import opened Wrappers

  datatype Profile = Common | Bridge | Cg | Gles | Gles2 | Glsl

  /** ASCII upper-casing. */
  function Upper(c: char): char
  {
    if 'a' <= c <= 'z' then (c as int - 32) as char else c
  }

  /** The character as the case-insensitive comparison sees it: upper case, with '-' taken as '_'. */
  function Fold(c: char): char
  {
    if c == '-' then '_' else Upper(c)
  }

  /** Two names compare equal ignoring case and the difference between '-' and '_'. */
  predicate SameName(s: string, t: string)
  {
    |s| == |t| && forall i :: 0 <= i < |s| ==> Fold(s[i]) == Fold(t[i])
  }

  /**
   * string_profile: the profile whose name the string spells, in any case;
   * a string that spells none of them is taken as COMMON.
   */
  function StringProfile(s: string): (p: Profile)
    ensures p == Bridge <==> SameName(s, "BRIDGE")
    ensures p == Cg <==> SameName(s, "CG")
    ensures p == Gles <==> SameName(s, "GLES")
    ensures p == Gles2 <==> SameName(s, "GLES2")
    ensures p == Glsl <==> SameName(s, "GLSL")
    ensures p == Common <==>
      SameName(s, "COMMON") ||
      !(SameName(s, "BRIDGE") || SameName(s, "CG") || SameName(s, "GLES") ||
        SameName(s, "GLES2") || SameName(s, "GLSL"))
  {
    NamesExclusive(s);
    if SameName(s, "COMMON") then Common
    else if SameName(s, "BRIDGE") then Bridge
    else if SameName(s, "CG") then Cg
    else if SameName(s, "GLES") then Gles
    else if SameName(s, "GLES2") then Gles2
    else if SameName(s, "GLSL") then Glsl
    else Common
  }

  /** No string compares equal to both COMMON and BRIDGE, or to both GLES and GLSL (the other names differ in length). */
  lemma NamesExclusive(s: string)
    ensures !(SameName(s, "COMMON") && SameName(s, "BRIDGE"))
    ensures !(SameName(s, "GLES") && SameName(s, "GLSL"))
  {
    if SameName(s, "COMMON") {
      assert Fold(s[0]) == Fold("COMMON"[0]) == 'C';
    }
    if SameName(s, "GLES") {
      assert Fold(s[2]) == Fold("GLES"[2]) == 'E';
    }
  }

  /** Lower-case spellings are read as the same profile. */
  lemma LowerCaseNames()
    ensures StringProfile("common") == Common && StringProfile("bridge") == Bridge
    ensures StringProfile("cg") == Cg && StringProfile("gles") == Gles
    ensures StringProfile("gles2") == Gles2 && StringProfile("glsl") == Glsl
  {
    assert SameName("bridge", "BRIDGE");
    assert SameName("cg", "CG");
    assert SameName("gles", "GLES");
    assert SameName("gles2", "GLES2");
    assert SameName("glsl", "GLSL");
  }

  /**
   * The output operator as written: there is no case for CG, so printing
   * it fails the assertion at the end and writes nothing.
   */
  function ProfileNameAsWritten(p: Profile): string
  {
    match p
    case Common => "COMMON"
    case Bridge => "BRIDGE"
    case Cg => ""
    case Gles => "GLES"
    case Gles2 => "GLES2"
    case Glsl => "GLSL"
  }

  /** The output operator with a case for every profile: reading the name back gives the profile. */
  function ProfileName(p: Profile): (s: string)
    ensures StringProfile(s) == p
    ensures |s| > 0
  {
    match p
    case Common => "COMMON"
    case Bridge => "BRIDGE"
    case Cg => assert SameName("CG", "CG"); "CG"
    case Gles => "GLES"
    case Gles2 => "GLES2"
    case Glsl => "GLSL"
  }

  /** Printing then reading as written gives the profile back for every profile but CG, which comes back as COMMON. */
  lemma PrintReadAsWritten(p: Profile)
    ensures p != Cg ==> StringProfile(ProfileNameAsWritten(p)) == p
    ensures StringProfile(ProfileNameAsWritten(Cg)) == Common
  {
    assert ProfileNameAsWritten(p) == ProfileName(p) || p == Cg;
  }

  /** Distinct profiles print as names that read differently. */
  lemma ProfileNamesDistinct(p: Profile, q: Profile)
    requires p != q
    ensures !SameName(ProfileName(p), ProfileName(q))
  {
    if SameName(ProfileName(p), ProfileName(q)) {
      SameNameRespected(ProfileName(p), ProfileName(q));
    }
  }

  /** Strings that compare equal read as the same profile. */
  lemma SameNameRespected(s: string, t: string)
    requires SameName(s, t)
    ensures StringProfile(s) == StringProfile(t)
  {
    forall u: string | |u| == |s|
      ensures SameName(s, u) <==> SameName(t, u)
    {
      if SameName(s, u) {
        assert forall i :: 0 <= i < |t| ==> Fold(t[i]) == Fold(u[i]);
      }
      if SameName(t, u) {
        assert forall i :: 0 <= i < |s| ==> Fold(s[i]) == Fold(u[i]);
      }
    }
  }

  const Prefix := "profile_"

  /** make_xml: the element is named "profile_" followed by the profile's name. */
  function ElementName(p: Profile): (name: string)
    ensures |name| > |Prefix| && name[..|Prefix|] == Prefix
    ensures StringProfile(name[|Prefix|..]) == p
  {
    assert (Prefix + ProfileName(p))[|Prefix|..] == ProfileName(p);
    Prefix + ProfileName(p)
  }

  /** make_xml as written: for CG the name is only the prefix. */
  function ElementNameAsWritten(p: Profile): string
  {
    Prefix + ProfileNameAsWritten(p)
  }

  /**
   * load_xml for a profile: the element must be present, its name must
   * start with "profile_", and the rest must read as this very profile.
   */
  function LoadXml(element: Option<string>, profile: Profile): bool
  {
    element.Some? && |element.value| >= |Prefix| && element.value[..|Prefix|] == Prefix &&
    StringProfile(element.value[|Prefix|..]) == profile
  }

  /** A profile loads from the element saved for it, and from no other profile's element. */
  lemma SaveLoad(p: Profile, q: Profile)
    ensures LoadXml(Some(ElementName(p)), q) <==> p == q
  {
  }

  /** As written, a CG profile's saved element does not load back. */
  lemma CgSaveLoadAsWritten()
    ensures !LoadXml(Some(ElementNameAsWritten(Cg)), Cg)
    ensures forall p :: p != Cg ==> LoadXml(Some(ElementNameAsWritten(p)), p)
  {
    assert ElementNameAsWritten(Cg)[|Prefix|..] == "";
    forall p | p != Cg
      ensures LoadXml(Some(ElementNameAsWritten(p)), p)
    {
      assert ElementNameAsWritten(p) == ElementName(p);
    }
  }
}
