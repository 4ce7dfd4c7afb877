/**
 * Writer items of the component tree: the plain `Label` rows and the
 * `CcxWriter` family, each of which holds one block of CalculiX input text
 * (yapfc/model.py).
 */
module Writers {

  /** The writer classes: the base class `CcxWriter` and its ten subclasses. */
  datatype WriterKind =
    | Base | Mesh | Material | Section | Constraint | Contact
    | Amplitude | InitialCondition | Step | Boundary | Analysis

  /** The Python class that implements each writer kind. */
  function ClassName(kind: WriterKind): string
  {
    match kind
    case Base => "CcxWriter"
    case Mesh => "MeshSubWriter"
    case Material => "MaterialSubWriter"
    case Section => "SectionSubWriter"
    case Constraint => "ConstraintSubWriter"
    case Contact => "ContactSubWriter"
    case Amplitude => "AmplitudeSubWriter"
    case InitialCondition => "InitialConditionSubWriter"
    case Step => "StepSubWriter"
    case Boundary => "BoundarySubWriter"
    case Analysis => "AnalysisSubWriter"
  }

  /** The dotted path of the module that defines the writer classes. */
  const ModulePath: string := "yapfc.model"

  // ---------------------------------------------------------------------------
  // String operations behind the label derivation
  // ---------------------------------------------------------------------------

  /** Python's `str(type(obj))` for class `name` of module `modulePath`. */
  function TypeString(modulePath: string, name: string): string
  {
    "<class '" + modulePath + "." + name + "'>"
  }

  /** `s.split(c)[-1]`: the longest suffix of `s` that does not contain `c`. */
  function AfterLast(s: string, c: char): (r: string)
    ensures |r| <= |s| && r == s[|s| - |r|..]
    ensures c !in r
    ensures |r| < |s| ==> s[|s| - |r| - 1] == c
  {
    if |s| == 0 then s
    else if s[|s| - 1] == c then []
    else AfterLast(s[..|s| - 1], c) + [s[|s| - 1]]
  }

  /** `pat` occurs in `s` starting at index `i`. */
  predicate OccursAt(s: string, pat: string, i: nat)
  {
    i <= |s| && pat <= s[i..]
  }

  /**
   * `s.split(pat)[0]`: the part of `s` before the first occurrence of `pat`,
   * or all of `s` when `pat` does not occur.
   */
  function BeforeFirst(s: string, pat: string): (r: string)
    requires |pat| > 0
    ensures r <= s
    ensures forall i :: 0 <= i < |r| ==> !OccursAt(s, pat, i)
    ensures |r| < |s| ==> OccursAt(s, pat, |r|)
  {
    if pat <= s || s == [] then []
    else
      assert s[0..] == s;
      OccursInTail(s, pat);
      [s[0]] + BeforeFirst(s[1..], pat)
  }

  lemma OccursInTail(s: string, pat: string)
    requires s != []
    ensures forall i: nat :: 1 <= i <= |s| ==> (OccursAt(s, pat, i) <==> OccursAt(s[1..], pat, i - 1))
  {
    forall i: nat | 1 <= i <= |s| ensures s[1..][i - 1..] == s[i..] { }
  }

  /** An occurrence of `pat` starts with the first character of `pat`. */
  lemma OccursStartsWith(t: string, pat: string, i: nat)
    requires |pat| > 0
    ensures i < |t| && t[i] != pat[0] ==> !OccursAt(t, pat, i)
  {
    if OccursAt(t, pat, i) && i < |t| {
      assert t[i..][0] == t[i];
    }
  }

  /** The suffix after the last `c` of `a + [c] + b` is `b` when `b` has no `c`. */
  lemma {:induction false} AfterLastOfJoin(a: string, c: char, b: string)
    requires c !in b
    ensures AfterLast(a + [c] + b, c) == b
  {
    var s := a + [c] + b;
    if b != [] {
      assert s[..|s| - 1] == a + [c] + b[..|b| - 1];
      AfterLastOfJoin(a, c, b[..|b| - 1]);
    }
  }

  /** The first occurrence of `pat` in `s` is at `k`, so the split keeps `s[..k]`. */
  lemma BeforeFirstAt(s: string, pat: string, k: nat)
    requires |pat| > 0 && OccursAt(s, pat, k)
    requires forall i :: 0 <= i < k ==> s[i] != pat[0]
    ensures BeforeFirst(s, pat) == s[..k]
  {
    forall i | 0 <= i < k ensures !OccursAt(s, pat, i) {
      OccursStartsWith(s, pat, i);
    }
  }

  /**
   * The label a writer shows in the tree: the last "."-separated part of the
   * string form of its type, cut at the first "Sub".
   */
  function ClassLabel(modulePath: string, name: string): string
  {
    BeforeFirst(AfterLast(TypeString(modulePath, name), '.'), "Sub")
  }

  /** For a class name without ".", the module path plays no part in the label. */
  lemma ClassLabelOfPlainName(modulePath: string, name: string)
    requires '.' !in name
    ensures ClassLabel(modulePath, name) == BeforeFirst(name + "'>", "Sub")
  {
    assert TypeString(modulePath, name) == ("<class '" + modulePath) + ['.'] + (name + "'>");
    AfterLastOfJoin("<class '" + modulePath, '.', name + "'>");
  }

  /** Splitting `<stem>SubWriter'>` at "Sub" keeps the stem when it has no capital S. */
  lemma SplitStem(stem: string)
    requires 'S' !in stem
    ensures BeforeFirst(stem + "SubWriter'>", "Sub") == stem
  {
    var t := stem + "SubWriter'>";
    assert t[|stem|..] == "SubWriter'>";
    assert OccursAt(t, "Sub", |stem|);
    forall i | 0 <= i < |stem| ensures t[i] != 'S' {
      assert t[i] == stem[i];
    }
    BeforeFirstAt(t, "Sub", |stem|);
    assert t[..|stem|] == stem;
  }

  /** As `SplitStem`, for a stem whose only capital S is its first letter and is not followed by "u". */
  lemma SplitStemS(stem: string)
    requires |stem| >= 2 && stem[0] == 'S' && stem[1] != 'u' && 'S' !in stem[1..]
    ensures BeforeFirst(stem + "SubWriter'>", "Sub") == stem
  {
    var t := stem + "SubWriter'>";
    assert t[|stem|..] == "SubWriter'>";
    assert OccursAt(t, "Sub", |stem|);
    assert !OccursAt(t, "Sub", 0) by {
      assert t[0..][1] == t[1] == stem[1];
    }
    forall i | 0 <= i < |stem| ensures !OccursAt(t, "Sub", i) {
      if i > 0 {
        assert t[i] == stem[1..][i - 1];
        OccursStartsWith(t, "Sub", i);
      }
    }
    var r := BeforeFirst(t, "Sub");
    assert |r| == |stem|;
    assert t[..|stem|] == stem;
  }

  /**
   * The label derived from a `<stem>SubWriter` class is the stem, whatever
   * module path the type prints with.
   */
  lemma StemLabel(modulePath: string, stem: string, suffix: string)
    requires '.' !in stem && '.' !in suffix
    requires BeforeFirst(stem + suffix + "'>", "Sub") == stem
    ensures ClassLabel(modulePath, stem + suffix) == stem
  {
    NotInConcat(stem, suffix, '.');
    ClassLabelOfPlainName(modulePath, stem + suffix);
  }

  lemma NotInConcat(a: string, b: string, c: char)
    requires c !in a && c !in b
    ensures c !in a + b
  {
  }

  /** `pat` occurs nowhere in `s`, so the split keeps all of `s`. */
  lemma BeforeFirstAbsent(s: string, pat: string)
    requires |pat| > 0 && pat[0] !in s
    ensures BeforeFirst(s, pat) == s
  {
  }

  /**
   * The label expected of each writer class: the class name without its
   * "SubWriter" suffix, and for the base class, which has no "Sub", the whole
   * last segment of its type string including the closing "'>".
   */
  function ExpectedLabel(kind: WriterKind): string
  {
    match kind
    case Base => "CcxWriter'>"
    case Mesh => "Mesh"
    case Material => "Material"
    case Section => "Section"
    case Constraint => "Constraint"
    case Contact => "Contact"
    case Amplitude => "Amplitude"
    case InitialCondition => "InitialCondition"
    case Step => "Step"
    case Boundary => "Boundary"
    case Analysis => "Analysis"
  }

  /** The base class has no "Sub" in its name, so its label keeps the closing "'>". */
  lemma BaseLabel(modulePath: string)
    ensures ClassLabel(modulePath, ClassName(Base)) == ExpectedLabel(Base)
  {
    assert ClassName(Base) == "CcxWriter" && ExpectedLabel(Base) == "CcxWriter" + "'>";
    assert '.' !in "CcxWriter" && 'S' !in "CcxWriter" && 'S' !in "'>";
    PlainLabel(modulePath, "CcxWriter");
  }

  /** A class name without "." or capital S is kept whole, closing "'>" included. */
  lemma PlainLabel(modulePath: string, name: string)
    requires '.' !in name && 'S' !in name && 'S' !in "'>"
    ensures ClassLabel(modulePath, name) == name + "'>"
  {
    ClassLabelOfPlainName(modulePath, name);
    NotInConcat(name, "'>", 'S');
    BeforeFirstAbsent(name + "'>", "Sub");
  }

  /** A subclass whose name is `<stem>SubWriter` derives the label `<stem>`. */
  lemma SubclassLabel(modulePath: string, kind: WriterKind, stem: string)
    requires ClassName(kind) == stem + "SubWriter" && '.' !in stem
    requires BeforeFirst(stem + "SubWriter'>", "Sub") == stem
    ensures ClassLabel(modulePath, ClassName(kind)) == stem
  {
    assert '.' !in "SubWriter";
    assert stem + "SubWriter" + "'>" == stem + "SubWriter'>";
    StemLabel(modulePath, stem, "SubWriter");
  }

  /** MeshSubWriter shows the label "Mesh". */
  lemma MeshLabel(modulePath: string)
    ensures ClassLabel(modulePath, ClassName(Mesh)) == "Mesh"
  {
    assert ClassName(Mesh) == "Mesh" + "SubWriter";
    SplitStem("Mesh");
    SubclassLabel(modulePath, Mesh, "Mesh");
  }

  /** MaterialSubWriter shows the label "Material". */
  lemma MaterialLabel(modulePath: string)
    ensures ClassLabel(modulePath, ClassName(Material)) == "Material"
  {
    assert ClassName(Material) == "Material" + "SubWriter";
    SplitStem("Material");
    SubclassLabel(modulePath, Material, "Material");
  }

  /** SectionSubWriter shows the label "Section". */
  lemma SectionLabel(modulePath: string)
    ensures ClassLabel(modulePath, ClassName(Section)) == "Section"
  {
    assert ClassName(Section) == "Section" + "SubWriter";
    SplitStemS("Section");
    SubclassLabel(modulePath, Section, "Section");
  }

  /** ConstraintSubWriter shows the label "Constraint". */
  lemma ConstraintLabel(modulePath: string)
    ensures ClassLabel(modulePath, ClassName(Constraint)) == "Constraint"
  {
    assert ClassName(Constraint) == "Constraint" + "SubWriter";
    SplitStem("Constraint");
    SubclassLabel(modulePath, Constraint, "Constraint");
  }

  /** ContactSubWriter shows the label "Contact". */
  lemma ContactLabel(modulePath: string)
    ensures ClassLabel(modulePath, ClassName(Contact)) == "Contact"
  {
    assert ClassName(Contact) == "Contact" + "SubWriter";
    SplitStem("Contact");
    SubclassLabel(modulePath, Contact, "Contact");
  }

  /** AmplitudeSubWriter shows the label "Amplitude". */
  lemma AmplitudeLabel(modulePath: string)
    ensures ClassLabel(modulePath, ClassName(Amplitude)) == "Amplitude"
  {
    assert ClassName(Amplitude) == "Amplitude" + "SubWriter";
    SplitStem("Amplitude");
    SubclassLabel(modulePath, Amplitude, "Amplitude");
  }

  /** InitialConditionSubWriter shows the label "InitialCondition". */
  lemma InitialConditionLabel(modulePath: string)
    ensures ClassLabel(modulePath, ClassName(InitialCondition)) == "InitialCondition"
  {
    assert ClassName(InitialCondition) == "InitialCondition" + "SubWriter";
    SplitStem("InitialCondition");
    SubclassLabel(modulePath, InitialCondition, "InitialCondition");
  }

  /** StepSubWriter shows the label "Step". */
  lemma StepLabel(modulePath: string)
    ensures ClassLabel(modulePath, ClassName(Step)) == "Step"
  {
    assert ClassName(Step) == "Step" + "SubWriter";
    SplitStemS("Step");
    SubclassLabel(modulePath, Step, "Step");
  }

  /** BoundarySubWriter shows the label "Boundary". */
  lemma BoundaryLabel(modulePath: string)
    ensures ClassLabel(modulePath, ClassName(Boundary)) == "Boundary"
  {
    assert ClassName(Boundary) == "Boundary" + "SubWriter";
    SplitStem("Boundary");
    SubclassLabel(modulePath, Boundary, "Boundary");
  }

  /** AnalysisSubWriter shows the label "Analysis". */
  lemma AnalysisLabel(modulePath: string)
    ensures ClassLabel(modulePath, ClassName(Analysis)) == "Analysis"
  {
    assert ClassName(Analysis) == "Analysis" + "SubWriter";
    SplitStem("Analysis");
    SubclassLabel(modulePath, Analysis, "Analysis");
  }

  /** The label each writer class derives is the expected one, whatever module path its type prints with. */
  lemma DerivedLabel(modulePath: string, kind: WriterKind)
    ensures ClassLabel(modulePath, ClassName(kind)) == ExpectedLabel(kind)
  {
    match kind
    case Base => BaseLabel(modulePath);
    case Mesh => MeshLabel(modulePath);
    case Material => MaterialLabel(modulePath);
    case Section => SectionLabel(modulePath);
    case Constraint => ConstraintLabel(modulePath);
    case Contact => ContactLabel(modulePath);
    case Amplitude => AmplitudeLabel(modulePath);
    case InitialCondition => InitialConditionLabel(modulePath);
    case Step => StepLabel(modulePath);
    case Boundary => BoundaryLabel(modulePath);
    case Analysis => AnalysisLabel(modulePath);
  }

  // ---------------------------------------------------------------------------
  // CalculiX text templates installed by the writer constructors
  // ---------------------------------------------------------------------------

  /** A triple-quoted text block: its lines joined with newlines. */
  function JoinLines(lines: seq<string>): (r: string)
    ensures |lines| == 1 ==> r == lines[0]
  {
    if lines == [] then ""
    else if |lines| == 1 then lines[0]
    else lines[0] + "\n" + JoinLines(lines[1..])
  }

  /** A text block starts with its first line. */
  lemma {:induction false} JoinLinesStartsWithFirst(lines: seq<string>)
    requires lines != []
    ensures lines[0] <= JoinLines(lines)
  {
    if |lines| > 1 {
      assert JoinLines(lines) == lines[0] + ("\n" + JoinLines(lines[1..]));
    }
  }

  /** A text block ends with its last line. */
  lemma {:induction false} JoinLinesEndsWithLast(lines: seq<string>)
    requires lines != []
    ensures var r, last := JoinLines(lines), lines[|lines| - 1];
      |last| <= |r| && r[|r| - |last|..] == last
  {
    if |lines| > 1 {
      JoinLinesEndsWithLast(lines[1..]);
      var rest := JoinLines(lines[1..]);
      var last := lines[|lines| - 1];
      assert lines[1..][|lines[1..]| - 1] == last;
      var r := lines[0] + "\n" + rest;
      assert r[|r| - |last|..] == rest[|rest| - |last|..];
    }
  }

  const MeshLines: seq<string> := [
      "*Node",
      "1, -2.62000000E+001, 5.79483884E+000, -4.82760553E+000",
      "2, -2.62000000E+001, 1.06948388E+001, -4.82760553E+000",
      "3, -1.52000000E+001, 5.79483884E+000, -4.82760553E+000",
      "4, -1.52000000E+001, 1.06948388E+001, -4.82760553E+000",
      "5, -2.62000000E+001, 8.24483884E+000, -4.82760553E+000",
      "6, -2.62000000E+001, 7.01983884E+000, -4.82760553E+000",
      "7, -2.62000000E+001, 9.46983884E+000, -4.82760553E+000",
      "8, -2.62000000E+001, 8.24483884E+000, -2.37760553E+000",
      "9, -2.62000000E+001, 9.46983884E+000, -3.60260553E+000",
      "10, -2.62000000E+001, 7.01983884E+000, -3.60260553E+000",
      "11, -2.07000000E+001, 5.79483884E+000, -4.82760553E+000",
      "12, -2.07000000E+001, 1.06948388E+001, -4.82760553E+000",
      "13, -1.52000000E+001, 8.24483884E+000, -4.82760553E+000",
      "14, -1.52000000E+001, 7.01983884E+000, -4.82760553E+000",
      "15, -1.52000000E+001, 9.46983884E+000, -4.82760553E+000",
      "16, -1.52000000E+001, 8.24483884E+000, -2.37760553E+000",
      "17, -1.52000000E+001, 9.46983884E+000, -3.60260553E+000",
      "18, -1.52000000E+001, 7.01983884E+000, -3.60260553E+000",
      "19, -2.62000000E+001, 8.24483884E+000, -3.60260553E+000",
      "20, -2.07000000E+001, 8.24483884E+000, -4.82760553E+000",
      "21, -2.07000000E+001, 8.24483884E+000, -2.37760553E+000",
      "22, -1.52000000E+001, 8.24483884E+000, -3.60260553E+000",
      "",
      "*Element, Type=C3D15, Elset=Solid_part-2",
      "1, 2, 8, 5, 4, 16, 13, 9, 19, 7, 17, 22, 15, 12, 21, 20",
      "2, 1, 5, 8, 3, 13, 16, 6, 19, 10, 14, 22, 18, 11, 20, 21",
      "",
      "*Nset, Nset=Internal_Selection-1_Fixed-1",
      "1, 2, 5, 6, 7, 8, 9, 10, 19",
      "*Nset, Nset=Internal-1_Internal_Selection-1_Surface_Traction-1",
      "3, 4, 13, 14, 15, 16, 17, 18, 22",
      "",
      "*Elset, Elset=Internal_Selection-1_Solid_Section-1",
      "Solid_part-2",
      "*Elset, Elset=Internal-1_Internal_Selection-1_Surface_Traction-1_S2",
      "1, 2",
      "",
      "*Surface, Name=Internal_Selection-1_Surface_Traction-1, Type=Element",
      "Internal-1_Internal_Selection-1_Surface_Traction-1_S2, S2"
    ]

  const MaterialLines: seq<string> := [
      "*Material, Name=ABS",
      "*Density",
      "1.02E-09",
      "*Elastic",
      "2000, 0.394",
      "*Expansion, Zero=20",
      "7.4E-05",
      "*Conductivity",
      "0.2256",
      "*Specific heat",
      "1386000000"
    ]

  const StepLines: seq<string> := [
      "*Step",
      "*Static, Solver=Spooles",
      "*Output, Frequency=1"
    ]

  const BoundaryLines: seq<string> := [
      "*Boundary, op=New",
      "** Name: Fixed-1",
      "*Boundary",
      "Internal_Selection-1_Fixed-1, 1, 6, 0",
      "",
      "*Cload, op=New",
      "*Dload, op=New",
      "** Name: Surface_Traction-1",
      "*Cload",
      "17, 1, 16.6666666666667",
      "22, 1, 33.3333333333333",
      "15, 1, 16.6666666666667",
      "14, 1, 16.6666666666667",
      "18, 1, 16.6666666666667",
      "*Node file",
      "RF, U",
      "*El file",
      "S, E, NOE",
      "**",
      "** End step ++++++++++++++++++++++++++++++++++++++++++++++++",
      "**",
      "*End step"
    ]

  /** The text a freshly constructed writer of each kind holds. */
  function Template(kind: WriterKind): string
  {
    match kind
    case Base => ""
    case Mesh => JoinLines(MeshLines)
    case Material => JoinLines(MaterialLines)
    case Section => "*Solid section, Elset=Internal_Selection-1_Solid_Section-1, Material=ABS"
    case Constraint => "**CONSTRAINT"
    case Contact => "**CONTACT"
    case Amplitude => "**AMPLITUDE"
    case InitialCondition => "**INITIALCONDITION"
    case Step => JoinLines(StepLines)
    case Boundary => JoinLines(BoundaryLines)
    case Analysis => ""
  }

  /** The material template opens the ABS material definition. */
  lemma MaterialTemplateHead()
    ensures "*Material, Name=ABS" <= Template(Material)
  {
    JoinLinesStartsWithFirst(MaterialLines);
  }

  /** The step template opens a step. */
  lemma StepTemplateHead()
    ensures "*Step" <= Template(Step)
  {
    JoinLinesStartsWithFirst(StepLines);
  }

  /** The four placeholder writers hold one comment line naming their block. */
  lemma PlaceholderTemplates()
    ensures Template(Constraint) == "**CONSTRAINT" && Template(Contact) == "**CONTACT"
    ensures Template(Amplitude) == "**AMPLITUDE" && Template(InitialCondition) == "**INITIALCONDITION"
  {
  }

  /** The section template assigns the material the material template defines. */
  lemma SectionTemplateMaterial()
    ensures var r := Template(Section); |r| >= 12 && r[|r| - 12..] == "Material=ABS"
  {
    var head, tail := "*Solid section, Elset=Internal_Selection-1_Solid_Section-1, ", "Material=ABS";
    assert Template(Section) == head + tail;
    EndsWith(head, tail);
  }

  lemma EndsWith(head: string, tail: string)
    ensures (head + tail)[|head + tail| - |tail|..] == tail
  {
  }

  /** The boundary template closes the step the step template opened. */
  lemma BoundaryTemplateTail()
    ensures var r := Template(Boundary); |r| >= 9 && r[|r| - 9..] == "*End step"
  {
    JoinLinesEndsWithLast(BoundaryLines);
  }

  // ---------------------------------------------------------------------------
  // The decorator on the getters
  // ---------------------------------------------------------------------------

  /** The copy the decorator makes of the wrapped function's result. */
  datatype CopyMode = NoCopy | ShallowCopy | DeepCopy

  /** A result together with the kind of copy that was made of it. */
  datatype Returned<T> = Returned(value: T, copy: CopyMode)

  /**
   * `refOnDemand(fn)` called with `args` and keyword arguments `kwargs`: the
   * keywords `ref` and `deepCopyRef` (both true when absent, tested with
   * Python truthiness `truthy`) are removed before `fn` is called, and choose
   * whether and how deeply the result is copied. The results are immutable
   * values here, so a copy equals the original.
   */
  function RefOnDemand<A, V, T>(fn: (A, map<string, V>) -> T, truthy: V -> bool,
                                args: A, kwargs: map<string, V>): (r: Returned<T>)
    ensures r.value == fn(args, kwargs - {"ref", "deepCopyRef"})
    ensures r.copy == NoCopy <==> "ref" in kwargs && !truthy(kwargs["ref"])
    ensures r.copy == ShallowCopy <==>
      r.copy != NoCopy && "deepCopyRef" in kwargs && !truthy(kwargs["deepCopyRef"])
  {
    var wantCopy := if "ref" in kwargs then truthy(kwargs["ref"]) else true;
    var deep := if "deepCopyRef" in kwargs then truthy(kwargs["deepCopyRef"]) else true;
    var result := fn(args, kwargs - {"ref", "deepCopyRef"});
    if !wantCopy then Returned(result, NoCopy)
    else if deep then Returned(result, DeepCopy)
    else Returned(result, ShallowCopy)
  }

  /**
   * The two flags never change the value returned: calls that differ only in
   * `ref` and `deepCopyRef` return the same value.
   */
  lemma RefOnDemandIgnoresFlags<A, V, T>(fn: (A, map<string, V>) -> T, truthy: V -> bool,
                                         args: A, k1: map<string, V>, k2: map<string, V>)
    requires k1 - {"ref", "deepCopyRef"} == k2 - {"ref", "deepCopyRef"}
    ensures RefOnDemand(fn, truthy, args, k1).value == RefOnDemand(fn, truthy, args, k2).value
    ensures RefOnDemand(fn, truthy, args, k1).value == RefOnDemand(fn, truthy, args, k1 - {"ref", "deepCopyRef"}).value
  {
    assert (k1 - {"ref", "deepCopyRef"}) - {"ref", "deepCopyRef"} == k1 - {"ref", "deepCopyRef"};
  }

  // ---------------------------------------------------------------------------
  // Tree items
  // ---------------------------------------------------------------------------

  /** A category row of the tree: it shows its constructor text and stores no text. */
  class Label {
    const textLabel: string

    constructor (text: string)
      ensures GetTextLabel() == text
      ensures GetStoredText() == ""
    {
      textLabel := text;
    }

    function GetTextLabel(): string
    {
      textLabel
    }

    /** A category holds no solver input. */
    function GetStoredText(): string
    {
      ""
    }
  }

  /** A writer row of the tree: one block of CalculiX input text. */
  class CcxWriter {
    const kind: WriterKind
    /** The display text the row was created with. */
    const text: string
    /**
     * The label the base constructor derives from the class name;
     * `LabelFromClassName` shows the derivation gives this value.
     */
    const textLabel: string := ExpectedLabel(kind)
    var storedText: string
    /** Only `AnalysisSubWriter` has an inp string; other kinds keep it empty. */
    var inpString: string

    /**
     * The constructor of the subclass for `kind`: the base constructor leaves
     * the stored text empty and derives the label; the subclass then installs
     * its template.
     */
    constructor (kind: WriterKind, text: string)
      ensures this.kind == kind && this.text == text
      ensures GetStoredText() == Template(kind)
      ensures inpString == ""
    {
      this.kind := kind;
      this.text := text;
      storedText := "";
      inpString := "";
      new;
      if kind != Base && kind != Analysis {
        SetStoredText(Template(kind));
      }
    }

    method SetStoredText(newText: string)
      modifies this`storedText
      ensures GetStoredText() == newText
    {
      storedText := newText;
    }

    function GetStoredText(): string
      reads this`storedText
    {
      storedText
    }

    function GetTextLabel(): string
    {
      textLabel
    }

    /** `AnalysisSubWriter.setInpString`: replaces the inp string and nothing else. */
    method SetInpString(newInpStr: string)
      requires kind == Analysis
      modifies this`inpString
      ensures inpString == newInpStr
    {
      inpString := newInpStr;
    }
  }

  /** Every writer's label is the last dotted segment of its type string, cut at "Sub". */
  lemma LabelFromClassName(w: CcxWriter)
    ensures w.GetTextLabel() == ClassLabel(ModulePath, ClassName(w.kind))
  {
    DerivedLabel(ModulePath, w.kind);
  }
}
