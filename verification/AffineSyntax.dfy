/** The typed syntax tree that the ownership pass walks (koschei/ast_nodes.py), with the
    type that Typed HIR recorded for every expression stored in the node itself.  */
module AffineSyntax {
  import opened Options

  /** A structural type.  `affine` is the verdict of `TypeContractValidator.is_sensitive`. */
  datatype Ty = Ty(name: string, arguments: seq<Ty>, affine: bool)

  const UNKNOWN: Ty := Ty("", [], false)

  datatype Expr =
    | Literal(ty: Ty)
    | Identifier(name: string, ty: Ty)
    | Interpolated(parts: seq<Expr>, ty: Ty)
    | ListLiteral(items: seq<Expr>, ty: Ty)
    | MapLiteral(entries: seq<Entry>, ty: Ty)
    | StructLiteral(fields: seq<Expr>, ty: Ty)
    | Member(obj: Expr, ty: Ty)
    | Call(callee: Expr, arguments: seq<Expr>, ty: Ty)
    | Binary(left: Expr, right: Expr, ty: Ty)
    | Unary(operand: Expr, ty: Ty)
    | OrReturn(value: Expr, error: Option<Expr>, ty: Ty)
    | OrElse(value: Expr, fallback: Expr, ty: Ty)
    | OrBlock(value: Expr, handler: seq<Stmt>, ty: Ty)
    | Match(value: Expr, arms: seq<Arm>, ty: Ty)
    | Assignment(target: Expr, value: Expr, ty: Ty)

  datatype Entry = Entry(key: Expr, value: Expr)

  datatype Arm =
    | ArmBlock(binding: Option<string>, block: seq<Stmt>)
    | ArmExpr(binding: Option<string>, body: Expr)

  datatype Stmt =
    | Let(name: string, mutable: bool, value: Expr)
    | Return(result: Option<Expr>)
    | ExprStmt(expr: Expr)
    | IfStmt(branch: If)
    | While(condition: Expr, body: seq<Stmt>)
    | For(variable: string, iterable: Expr, body: seq<Stmt>)
    | Break
    | Continue

  datatype If = If(condition: Expr, thenBlock: seq<Stmt>, els: Else)

  datatype Else = NoElse | ElseBlock(block: seq<Stmt>) | ElseIf(branch: If)

  datatype Parameter = Parameter(name: string, ty: Ty)

  datatype Function = Function(parameters: seq<Parameter>, body: seq<Stmt>)

  datatype Context = MOVE | BORROW

  /** An ownership-transfer position moves its expression only when the expression's type is affine. */
  function Transfer(ctx: Context, e: Expr): Context {
    if e.ty.affine then ctx else BORROW
  }

  datatype Operand = Operand(expr: Expr, ctx: Context)

  function Operands(es: seq<Expr>, ctx: Context): (r: seq<Operand>)
    ensures |r| == |es|
    ensures forall i :: 0 <= i < |es| ==> r[i] == Operand(es[i], Transfer(ctx, es[i]))
  {
    seq(|es|, i requires 0 <= i < |es| => Operand(es[i], Transfer(ctx, es[i])))
  }

  function EntryOperands(entries: seq<Entry>): (r: seq<Operand>)
    ensures |r| == 2 * |entries|
    ensures forall o :: o in r ==> exists i :: 0 <= i < |entries| && (o.expr == entries[i].key || o.expr == entries[i].value)
  {
    seq(2 * |entries|, j requires 0 <= j < 2 * |entries| =>
      if j % 2 == 0 then Operand(entries[j / 2].key, BORROW)
      else Operand(entries[j / 2].value, Transfer(MOVE, entries[j / 2].value)))
  }

  /** Expressions whose sub-expressions are all visited, once each and from left to right. */
  predicate Strict(e: Expr) {
    e.Interpolated? || e.ListLiteral? || e.MapLiteral? || e.StructLiteral? || e.Call? || e.Unary? || e.Assignment?
  }

  /** The sub-expressions of a strict expression in evaluation order, each with its ownership context. */
  function StrictOperands(e: Expr): (r: seq<Operand>)
    requires Strict(e)
    ensures forall i :: 0 <= i < |r| ==> r[i].expr < e
  {
    match e
    case Interpolated(parts, _) => Operands(parts, BORROW)
    case ListLiteral(items, _) => Operands(items, MOVE)
    case MapLiteral(entries, _) =>
      var r := EntryOperands(entries);
      assert forall i :: 0 <= i < |r| ==> r[i] in r;
      r
    case StructLiteral(fields, _) => Operands(fields, MOVE)
    case Call(callee, arguments, _) =>
      // A method receiver is borrowed; the member itself is not visited.
      [Operand(if callee.Member? then callee.obj else callee, BORROW)] + Operands(arguments, MOVE)
    case Unary(operand, _) => [Operand(operand, BORROW)]
    case Assignment(target, value, _) => [Operand(value, Transfer(MOVE, value)), Operand(target, BORROW)]
  }

  /** The identifier at the bottom of a chain of member selections, if there is one. */
  function Root(e: Expr): Option<string> {
    match e
    case Member(obj, _) => Root(obj)
    case Identifier(name, _) => Some(name)
    case _ => None
  }

  predicate IsSystemCaps(ty: Ty) {
    ty.name == "SystemCaps" && ty.arguments == []
  }

  /** Moving an affine field moves its owner, except for a projection of the root authority. */
  predicate MovesOwner(e: Expr, ctx: Context) {
    e.Member? && ctx == MOVE && e.ty.affine && !IsSystemCaps(e.obj.ty)
  }

  /** The type given to the loop variable of a `for`. */
  function ItemType(iterable: Expr): Ty {
    if |iterable.ty.arguments| > 0 then iterable.ty.arguments[0] else UNKNOWN
  }

  // ----- Bindings and scopes, shared by the checker and by the path semantics

  datatype Binding = Binding(id: nat, ty: Ty)

  type Scope = map<string, Binding>

  /** Name lookup, innermost scope first. */
  function Resolve(scopes: seq<Scope>, name: string): (r: Option<Binding>)
    ensures r.Some? ==> exists k :: 0 <= k < |scopes| && name in scopes[k] && scopes[k][name] == r.value
  {
    if scopes == [] then None
    else
      var top := scopes[|scopes| - 1];
      if name in top then Some(top[name]) else Resolve(scopes[..|scopes| - 1], name)
  }

  /** The affine binding a name denotes, if it denotes one. */
  function AffineBinding(scopes: seq<Scope>, name: string): Option<nat> {
    match Resolve(scopes, name)
    case Some(b) => if b.ty.affine then Some(b.id) else None
    case None => None
  }

  function Bind(scopes: seq<Scope>, name: string, b: Binding): (r: seq<Scope>)
    requires scopes != []
    ensures |r| == |scopes| && r[..|r| - 1] == scopes[..|r| - 1]
  {
    var n := |scopes| - 1;
    scopes[n := scopes[n][name := b]]
  }

  /** Identities of every binding that some scope still holds. */
  function Ids(scopes: seq<Scope>): set<nat> {
    set k, name | 0 <= k < |scopes| && name in scopes[k] :: scopes[k][name].id
  }
}
