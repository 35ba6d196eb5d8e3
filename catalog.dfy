/**
  The fault catalog: for each of the five component kinds of a computer, the
  three faults it can suffer, each with a repair cost and a remedy. Component
  names are the catalog's keys; they are the Portuguese strings the simulator
  shows, and component identifiers are built from the computer's number.
 */
module Catalog {
  import opened Wrappers

  /** The five kinds of component every computer holds. */
  datatype Kind = Motherboard | Processor | Memory | Storage | PowerSupply

  /**
    A catalog entry, identified by its kind and its position (0, 1 or 2) among
    that kind's three entries; `Details` gives its problem, cost and remedy.
   */
  datatype Fault = Fault(kind: Kind, index: Slot)

  /** A position among a kind's three catalog entries. */
  type Slot = i: nat | i < 3

  /** What a catalog entry says: the problem, what repairing it costs, and the remedy. */
  datatype FaultText = FaultText(problem: string, cost: int, remedy: string)

  /** The fixed order in which a computer holds its components. */
  const Kinds: seq<Kind> := [Motherboard, Processor, Memory, Storage, PowerSupply]

  /** The name a component of this kind carries (the catalog key). */
  function Name(k: Kind): (s: string)
    ensures |s| > 0
  {
    match k
    case Motherboard => "Placa mãe"
    case Processor => "Processador"
    case Memory => "Memória RAM"
    case Storage => "Armazenamento"
    case PowerSupply => "Fonte de alimentação"
  }

  /** Looking a name up in the catalog: None where the dictionary lookup would fail. */
  function KindNamed(name: string): (r: Option<Kind>)
    ensures r.Some? ==> Name(r.value) == name
    ensures r.None? ==> forall k: Kind :: Name(k) != name
  {
    if name == "Placa mãe" then Some(Motherboard)
    else if name == "Processador" then Some(Processor)
    else if name == "Memória RAM" then Some(Memory)
    else if name == "Armazenamento" then Some(Storage)
    else if name == "Fonte de alimentação" then Some(PowerSupply)
    else None
  }

  /** Every kind's name is a catalog key, and it leads back to that kind. */
  lemma NameRoundTrip(k: Kind)
    ensures KindNamed(Name(k)) == Some(k)
  {
    match k
    case Motherboard =>
    case Processor =>
      assert Name(k)[1] != Name(Motherboard)[1];
    case Memory =>
      assert Name(k)[0] != Name(Motherboard)[0] && Name(k)[0] != Name(Processor)[0];
    case Storage =>
      assert Name(k)[0] != Name(Motherboard)[0] && Name(k)[0] != Name(Processor)[0];
      assert Name(k)[0] != Name(Memory)[0];
    case PowerSupply =>
      assert Name(k)[0] != Name(Motherboard)[0] && Name(k)[0] != Name(Processor)[0];
      assert Name(k)[0] != Name(Memory)[0] && Name(k)[0] != Name(Storage)[0];
  }

  /** The catalog entry for a kind: its three faults, in catalog order. */
  function Faults(k: Kind): (fs: seq<Fault>)
    ensures |fs| == 3
    ensures forall i :: 0 <= i < 3 ==> fs[i].kind == k && fs[i].index == i
  {
    [Fault(k, 0), Fault(k, 1), Fault(k, 2)]
  }

  /** The problem, cost and remedy the catalog lists for an entry. */
  function Details(f: Fault): FaultText
  {
    match f.kind
    case Motherboard =>
      if f.index == 0 then FaultText("Circuito queimado", 300, "Substituição do circuito danificado")
      else if f.index == 1 then FaultText("Conexão com a RAM falhou", 150, "Reparo nos slots de RAM")
      else FaultText("BIOS corrompida", 200, "Reinstalação ou atualização do BIOS")
    case Processor =>
      if f.index == 0 then FaultText("Superaquecimento", 250, "Substituição do cooler ou aplicação de pasta térmica")
      else if f.index == 1 then FaultText("Pinos danificados", 400, "Troca do processador")
      else FaultText("Falha na execução de instruções", 350, "Reconfiguração do processador")
    case Memory =>
      if f.index == 0 then FaultText("Falha em um módulo", 100, "Troca do módulo de memória")
      else if f.index == 1 then FaultText("Erro de paridade", 120, "Reparo na memória")
      else FaultText("Conexão instável com a placa-mãe", 150, "Ajuste nos conectores")
    case Storage =>
      if f.index == 0 then FaultText("Setores defeituosos", 200, "Reparação de setores ou clonagem de disco")
      else if f.index == 1 then FaultText("Controlador de disco com defeito", 250, "Troca do controlador")
      else FaultText("Desgaste do SSD", 300, "Substituição do SSD")
    case PowerSupply =>
      if f.index == 0 then FaultText("Falta de energia", 150, "Substituição de capacitores")
      else if f.index == 1 then FaultText("Sobrecarga", 180, "Reparo no circuito interno")
      else FaultText("Capacitor queimado", 200, "Troca do capacitor")
  }

  /** Every repair in the catalog costs between 100 and 400. */
  lemma CostsInRange(f: Fault)
    ensures 100 <= Details(f).cost <= 400
  {
    match f.kind
    case Motherboard =>
    case Processor =>
    case Memory =>
    case Storage =>
    case PowerSupply =>
  }

  /** The suffix a component's identifier carries after its computer's number. */
  function IdSuffix(k: Kind): (s: string)
    ensures |s| >= 2 && s[0] == '-'
  {
    match k
    case Motherboard => "-mãe"
    case Processor => "-processador"
    case Memory => "-ram"
    case Storage => "-armazenamento"
    case PowerSupply => "-fonte"
  }

  /** The decimal digit for d. */
  function Digit(d: nat): (c: char)
    requires d < 10
    ensures '0' <= c <= '9'
  {
    ('0' as int + d) as char
  }

  /** The decimal numeral of n, as an f-string writes it. */
  function NatToString(n: nat): (s: string)
    ensures |s| >= 1
    ensures forall i :: 0 <= i < |s| ==> '0' <= s[i] <= '9'
  {
    if n < 10 then [Digit(n)] else NatToString(n / 10) + [Digit(n % 10)]
  }

  /** The identifier of the component of kind k in computer number n ("0-mãe"). */
  function ComponentId(n: nat, k: Kind): (s: string)
    ensures |s| >= 3
  {
    NatToString(n) + IdSuffix(k)
  }

  /** Only the numbers below ten are written with one digit. */
  lemma OneDigit(n: nat)
    ensures |NatToString(n)| == 1 <==> n < 10
  {
    if n >= 10 {
      assert |NatToString(n)| == |NatToString(n / 10)| + 1;
    }
  }

  /** Different numbers have different numerals. */
  lemma {:induction false} NatToStringInjective(m: nat, n: nat)
    requires NatToString(m) == NatToString(n)
    ensures m == n
  {
    var s, t := NatToString(m), NatToString(n);
    OneDigit(m);
    OneDigit(n);
    if m >= 10 {
      var s', t' := NatToString(m / 10), NatToString(n / 10);
      assert s' == s[..|s| - 1] && t' == t[..|t| - 1];
      NatToStringInjective(m / 10, n / 10);
      assert Digit(m % 10) == s[|s| - 1] == t[|t| - 1] == Digit(n % 10);
    }
  }

  /** The position of the first '-' in s, or |s| when there is none. */
  function DashAt(s: string): (i: nat)
    ensures i <= |s|
  {
    if s == [] then 0 else if s[0] == '-' then 0 else 1 + DashAt(s[1..])
  }

  lemma {:induction false} DashAfterDigits(a: string, x: string)
    requires forall i :: 0 <= i < |a| ==> '0' <= a[i] <= '9'
    requires |x| >= 1 && x[0] == '-'
    ensures DashAt(a + x) == |a|
  {
    if a == [] {
      assert a + x == x;
    } else {
      assert (a + x)[1..] == a[1..] + x;
      DashAfterDigits(a[1..], x);
    }
  }

  /** Digits followed by a suffix that starts with '-' split in only one way. */
  lemma SplitAtDash(a: string, b: string, x: string, y: string)
    requires forall i :: 0 <= i < |a| ==> '0' <= a[i] <= '9'
    requires forall i :: 0 <= i < |b| ==> '0' <= b[i] <= '9'
    requires |x| >= 1 && x[0] == '-' && |y| >= 1 && y[0] == '-'
    requires a + x == b + y
    ensures a == b && x == y
  {
    DashAfterDigits(a, x);
    DashAfterDigits(b, y);
    assert a == (a + x)[..|a|] == (b + y)[..|b|] == b;
    assert x == (a + x)[|a|..] == (b + y)[|b|..] == y;
  }

  /** Component identifiers are unique: the computer number and the kind determine each other's id. */
  lemma ComponentIdsUnique(m: nat, j: Kind, n: nat, k: Kind)
    requires ComponentId(m, j) == ComponentId(n, k)
    ensures m == n && j == k
  {
    SplitAtDash(NatToString(m), NatToString(n), IdSuffix(j), IdSuffix(k));
    NatToStringInjective(m, n);
    var x := IdSuffix(j);
    match j
    case Motherboard =>
      assert x[1] == 'm';
    case Processor =>
      assert x[1] == 'p';
    case Memory =>
      assert x[1] == 'r';
    case Storage =>
      assert x[1] == 'a';
    case PowerSupply =>
      assert x[1] == 'f';
  }

  /** Drawing the details of a fault for a kind: `pick` is the draw among its catalog entries. */
  function ProblemDetails(k: Kind, pick: nat): (f: Fault)
    requires pick < 3
    ensures f in Faults(k) && f.kind == k
  {
    Faults(k)[pick]
  }

  /** The cost and the remedy of a catalog entry, its problem dropped. */
  function RepairCost(f: Fault): (r: (int, string))
    ensures FaultText(Details(f).problem, r.0, r.1) == Details(f)
  {
    (Details(f).cost, Details(f).remedy)
  }
}
