/** `copyProperty` on the heap, which is why the linker may treat properties as values. */
module Copy {
  import opened SchemaTree

  datatype Kind = KLink | KObject | KArray | KLeaf(walkable: bool)

  /** Nodes point to one another, and linking writes into them; a copy shares none with its original. */
  class Node {
    const kind: Kind
    const isNav: bool
    const navArray: bool
    const target: string
    var link: Resource?
    var fields: map<string, Node>
    var arrayOf: Node?
    /** All nodes of the tree below this one, itself included. */
    ghost const repr: set<Node>

    constructor (kind: Kind, isNav: bool, navArray: bool, target: string, fields: map<string, Node>, arrayOf: Node?,
                 ghost below: set<Node>)
      ensures this.kind == kind && this.isNav == isNav && this.navArray == navArray && this.target == target
      ensures this.fields == fields && this.arrayOf == arrayOf && link == null && repr == below + {this}
    {
      this.kind, this.isNav, this.navArray, this.target := kind, isNav, navArray, target;
      this.fields, this.arrayOf, this.link := fields, arrayOf, null;
      this.repr := below + {this};
    }
  }

  /** `n` is the root of a tree: the trees below it are disjoint and without `n`. */
  ghost predicate Tree(n: Node)
    reads n, n.repr
    decreases n.repr
  {
    && n in n.repr
    && (forall c {:trigger n.fields[c]} :: c in n.fields ==>
          n.fields[c] in n.repr && n.fields[c].repr < n.repr && n !in n.fields[c].repr && Tree(n.fields[c]))
    && (forall c, c' :: c in n.fields && c' in n.fields && c != c' ==> n.fields[c].repr !! n.fields[c'].repr)
    && (n.arrayOf != null ==>
          && n.arrayOf in n.repr && n.arrayOf.repr < n.repr && n !in n.arrayOf.repr && Tree(n.arrayOf)
          && forall c :: c in n.fields ==> n.fields[c].repr !! n.arrayOf.repr)
  }

  /** The property that the tree stands for. */
  ghost function Abs(n: Node): Prop
    requires Tree(n)
    reads n, n.repr
    decreases n.repr
  {
    match n.kind
    case KLink => PLink(n.isNav, n.target, n.link)
    case KObject => PObject(map c | c in n.fields :: Abs(n.fields[c]))
    case KArray =>
      if n.arrayOf != null && n.arrayOf.kind == KLink then PArray(n.navArray, n.arrayOf.target, n.arrayOf.link)
      else PLeaf(false)
    case KLeaf(walkable) => PLeaf(walkable)
  }

  /** No node of the tree is linked. */
  ghost predicate Bare(n: Node)
    reads n.repr
  {
    forall m :: m in n.repr ==> m.link == null
  }

  /** The trees in `to` are made of the nodes `below`, none of which is linked. */
  ghost predicate Forest(to: map<string, Node>, below: set<Node>)
    reads below
  {
    && (forall m :: m in below ==> m.link == null)
    && (forall c {:trigger to[c]} :: c in to ==> to[c] in below && to[c].repr <= below && Tree(to[c]))
    && (forall c, c' :: c in to && c' in to && c != c' ==> to[c].repr !! to[c'].repr)
  }

  lemma ForestMore(to: map<string, Node>, below: set<Node>, c: string, copy: Node)
    requires Forest(to, below) && Tree(copy) && Bare(copy) && copy.repr !! below && c !in to
    ensures Forest(to[c := copy], below + copy.repr)
  {
  }

  lemma NewTree(n: Node, below: set<Node>, nodes: set<Node>)
    requires Forest(n.fields, below) && n.link == null && n.repr == nodes + {n} && n !in nodes
    requires if n.arrayOf == null then nodes == below
             else Tree(n.arrayOf) && Bare(n.arrayOf) && n.arrayOf.repr !! below && nodes == below + n.arrayOf.repr
    ensures Tree(n) && Bare(n)
  {
  }

  /** The copied trees carry the same properties as the originals. */
  ghost predicate Copies(from: map<string, Node>, to: map<string, Node>)
    requires forall c {:trigger from[c]} :: c in from ==> Tree(from[c])
    requires forall c {:trigger to[c]} :: c in to ==> Tree(to[c])
    reads (set c | c in from :: from[c]), (set c, m | c in from && m in from[c].repr :: m)
    reads (set c | c in to :: to[c]), (set c, m | c in to && m in to[c].repr :: m)
  {
    to.Keys == from.Keys && forall c {:trigger to[c]} :: c in to ==> Abs(to[c]) == Abs(from[c])
  }

  lemma SameProperty(from: Node, to: Node)
    requires Tree(from) && Tree(to) && Bare(from) && Bare(to)
    requires to.kind == from.kind && to.isNav == from.isNav && to.navArray == from.navArray && to.target == from.target
    requires Copies(from.fields, to.fields)
    requires (to.arrayOf == null) == (from.arrayOf == null)
    requires to.arrayOf != null ==> to.arrayOf.kind == from.arrayOf.kind && to.arrayOf.target == from.arrayOf.target
    ensures Abs(to) == Abs(from)
  {
    if to.kind == KObject {
      assert (map c | c in to.fields :: Abs(to.fields[c])) == (map c | c in from.fields :: Abs(from.fields[c]));
    }
  }

  ghost function ReprOf(n: Node?): set<Node> {
    if n == null then {} else n.repr
  }

  /** A new node over copied parts. */
  method Assemble(from: Node, fields: map<string, Node>, arrayOf: Node?, ghost below: set<Node>) returns (to: Node)
    requires Tree(from) && Bare(from) && Forest(fields, below) && Copies(from.fields, fields)
    requires (arrayOf == null) == (from.arrayOf == null)
    requires arrayOf != null ==> Tree(arrayOf) && Bare(arrayOf) && arrayOf.repr !! below
    requires arrayOf != null ==> arrayOf.kind == from.arrayOf.kind && arrayOf.target == from.arrayOf.target
    ensures fresh(to) && to.repr == below + ReprOf(arrayOf) + {to} && Tree(to) && Bare(to) && Abs(to) == Abs(from)
    ensures to.kind == from.kind && to.target == from.target
  {
    to := new Node(from.kind, from.isNav, from.navArray, from.target, fields, arrayOf, below + ReprOf(arrayOf));
    NewTree(to, below, below + ReprOf(arrayOf));
    SameProperty(from, to);
  }

  /** A deep copy: the same property, made of new nodes only. */
  method CopyProperty(from: Node) returns (to: Node)
    requires Tree(from) && Bare(from)
    ensures fresh(to.repr) && Tree(to) && Bare(to) && Abs(to) == Abs(from)
    ensures to.kind == from.kind && to.target == from.target
    decreases from.repr, 0
  {
    var fields, below := CopyProperties(from.fields, from.repr - {from});
    var arrayOf: Node? := null;
    if from.arrayOf != null {
      arrayOf := CopyProperty(from.arrayOf);
    }
    to := Assemble(from, fields, arrayOf, below);
  }

  method CopyProperties(from: map<string, Node>, ghost bound: set<Node>)
    returns (to: map<string, Node>, ghost below: set<Node>)
    requires forall c {:trigger from[c]} :: c in from ==> from[c].repr <= bound && Tree(from[c]) && Bare(from[c])
    ensures fresh(below) && Forest(to, below) && Copies(from, to)
    decreases bound, 1
  {
    to, below := map[], {};
    var todo := from.Keys;
    while todo != {}
      invariant todo <= from.Keys && to.Keys == from.Keys - todo
      invariant fresh(below) && Forest(to, below)
      invariant forall c {:trigger to[c]} :: c in to ==> Abs(to[c]) == Abs(from[c])
      decreases |todo|
    {
      var c :| c in todo;
      var copy := CopyProperty(from[c]);
      ForestMore(to, below, c, copy);
      to := to[c := copy];
      below := below + copy.repr;
      todo := todo - {c};
    }
  }

  /** Linking a node of a copy changes no property but the copy's. */
  method LinkNode(from: Node, to: Node, x: Resource)
    requires Tree(from) && Tree(to) && from.repr !! to.repr && to.kind == KLink
    modifies to`link
    ensures Tree(from) && Abs(from) == old(Abs(from))
    ensures Tree(to) && Abs(to) == PLink(to.isNav, to.target, x)
  {
    to.link := x;
  }
}
