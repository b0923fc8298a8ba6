/**
 * The caption templates (`TEMPLATES`) and `getTemplates`, which lists
 * them as `{ id, name }` pairs in declaration order.
 */
module Templates {

  datatype Background = Background(color: string, opacity: real)
  datatype Frame = Frame(width: nat, height: nat, color: string, opacity: real, radius: nat, yOffset: nat)
  datatype TextStyle = TextStyle(color: string, size: nat, yOffset: nat, font: string, strokeWidth: nat, strokeColor: string)
  datatype Template = Template(name: string, background: Background, frame: Frame, text: TextStyle)

  /** One entry of `TEMPLATES`: its key and its template. */
  datatype Entry = Entry(id: string, template: Template)

  /** `TEMPLATES`, in the order its keys are declared. */
  const TEMPLATES: seq<Entry> := [
    Entry("classic", Template("Klasik Şablon",
      Background("black", 0.85),
      Frame(920, 1470, "white", 0.1, 20, 135),
      TextStyle("white", 72, 50, "Ubuntu", 2, "black"))),
    Entry("modern", Template("Modern Şablon",
      Background("#1a1a1a", 0.9),
      Frame(920, 1470, "#00ff00", 0.15, 30, 135),
      TextStyle("#00ff00", 80, 40, "Ubuntu", 3, "#1a1a1a"))),
    Entry("minimal", Template("Minimal Şablon",
      Background("#000000", 0.75),
      Frame(920, 1470, "#ffffff", 0.05, 25, 135),
      TextStyle("#ffffff", 65, 60, "Ubuntu", 1, "#000000")))
  ]

  /** What `getTemplates` lists per template. */
  datatype TemplateInfo = TemplateInfo(id: string, name: string)

  /** The listing of a sequence of entries. */
  function Infos(entries: seq<Entry>): (r: seq<TemplateInfo>)
    ensures |r| == |entries|
    ensures forall i :: 0 <= i < |r| ==> r[i].id == entries[i].id && r[i].name == entries[i].template.name
  {
    if |entries| == 0 then [] else [TemplateInfo(entries[0].id, entries[0].template.name)] + Infos(entries[1..])
  }

  /** `getTemplates()`: one `{ id, name }` per key of `TEMPLATES`, in order, the name taken from that template. */
  function GetTemplates(): (r: seq<TemplateInfo>)
    ensures |r| == |TEMPLATES|
    ensures forall i :: 0 <= i < |r| ==> r[i].id == TEMPLATES[i].id && r[i].name == TEMPLATES[i].template.name
    ensures forall i, j :: 0 <= i < j < |r| ==> r[i].id != r[j].id
  {
    Infos(TEMPLATES)
  }
}
