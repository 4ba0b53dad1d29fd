/**
 * The subject page of src/features/subjects/SubjectDetails.tsx: the grade badge colour, the
 * attendance colour bands used for both the figure and the progress bar, and the split of the
 * study materials by type. Colours are named by their band; the Tailwind classes are presentation.
 */
module SubjectDetails {
  import opened Wrappers
  import opened Seqs
  import opened Types

  datatype Colour = Green | Blue | Yellow | Orange | Red | Gray

  /**
   * `getGradeColor`: an absent or empty grade is gray; otherwise only the first character counts,
   * A to F (no E) giving green, blue, yellow, orange and red, anything else gray.
   */
  function GradeColor(grade: Option<string>): (r: Colour)
    ensures grade.None? || grade.value == "" ==> r == Gray
    ensures grade.Some? && grade.value != "" && grade.value[0] == 'A' ==> r == Green
    ensures grade.Some? && grade.value != "" && grade.value[0] == 'B' ==> r == Blue
    ensures grade.Some? && grade.value != "" && grade.value[0] == 'C' ==> r == Yellow
    ensures grade.Some? && grade.value != "" && grade.value[0] == 'D' ==> r == Orange
    ensures grade.Some? && grade.value != "" && grade.value[0] == 'F' ==> r == Red
    ensures grade.Some? && grade.value != "" && grade.value[0] !in {'A', 'B', 'C', 'D', 'F'} ==> r == Gray
  {
    if grade.None? || grade.value == "" then Gray
    else
      match grade.value[0]
      case 'A' => Green
      case 'B' => Blue
      case 'C' => Yellow
      case 'D' => Orange
      case 'F' => Red
      case _ => Gray
  }

  /** Grades that share a first letter share a colour, so `A-` and `A+` look like `A`. */
  lemma GradeColorByFirstLetter(g: string, h: string)
    requires g != [] && h != [] && g[0] == h[0]
    ensures GradeColor(Some(g)) == GradeColor(Some(h))
  {
  }

  /** `getAttendanceColor`: first match of at least 90, 80, 70; red below. */
  function AttendanceColor(attendance: real): (r: Colour)
    ensures r in {Green, Yellow, Orange, Red}
    ensures r == Green <==> attendance >= 90.0
    ensures r == Yellow <==> 80.0 <= attendance < 90.0
    ensures r == Orange <==> 70.0 <= attendance < 80.0
    ensures r == Red <==> attendance < 70.0
  {
    if attendance >= 90.0 then Green
    else if attendance >= 80.0 then Yellow
    else if attendance >= 70.0 then Orange
    else Red
  }

  /** The progress bar's own ternary chain, written separately in the source. */
  function AttendanceBarColor(attendance: real): (r: Colour)
    ensures r == AttendanceColor(attendance)
  {
    if attendance >= 90.0 then Green
    else if attendance >= 80.0 then Yellow
    else if attendance >= 70.0 then Orange
    else Red
  }

  /** The bands in increasing order of attendance. */
  function Rank(c: Colour): nat {
    match c
    case Red => 0
    case Orange => 1
    case Yellow => 2
    case Green => 3
    case _ => 0
  }

  /** More attendance never gives a worse band. */
  lemma AttendanceColorMonotonic(a: real, b: real)
    requires a <= b
    ensures Rank(AttendanceColor(a)) <= Rank(AttendanceColor(b))
  {
  }

  function IsPdf(m: Material): bool { m.kind == Pdf }
  function IsYoutube(m: Material): bool { m.kind == Youtube }

  /** `materialsByType`: two order-preserving filters of the subject's materials. */
  datatype MaterialsByType = MaterialsByType(pdf: seq<Material>, youtube: seq<Material>)

  function SplitMaterials(materials: seq<Material>): (r: MaterialsByType)
    ensures forall i :: 0 <= i < |r.pdf| ==> r.pdf[i].kind == Pdf
    ensures forall i :: 0 <= i < |r.youtube| ==> r.youtube[i].kind == Youtube
    ensures forall i :: 0 <= i < |materials| ==> materials[i] in r.pdf || materials[i] in r.youtube
    ensures |r.pdf| + |r.youtube| == |materials|
  {
    FilterSplit(materials, IsPdf, IsYoutube);
    MaterialsByType(Filter(materials, IsPdf), Filter(materials, IsYoutube))
  }

  /** Adding a material at the end adds it to the end of its own list and leaves the other list alone. */
  lemma {:induction false} AppendMaterial(materials: seq<Material>, m: Material)
    ensures var before, after := SplitMaterials(materials), SplitMaterials(materials + [m]);
      after == if m.kind == Pdf then before.(pdf := before.pdf + [m]) else before.(youtube := before.youtube + [m])
  {
    FilterAppend(materials, [m], IsPdf);
    FilterAppend(materials, [m], IsYoutube);
    FilterSingleton(m, IsPdf);
    FilterSingleton(m, IsYoutube);
  }

  /** The study-materials panel: the empty state, or one item per material in order. */
  datatype MaterialsPanel = NoMaterials | MaterialItems(items: seq<Material>)

  function RenderMaterials(s: Subject): (r: MaterialsPanel)
    ensures r.NoMaterials? <==> |s.materials| == 0
    ensures r.MaterialItems? ==> r.items == s.materials
  {
    if |s.materials| == 0 then NoMaterials else MaterialItems(s.materials)
  }
}
