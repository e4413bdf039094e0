/**
 * The column descriptors of www/orm.py:123-160: `Field` and its five
 * subclasses. A Field is a plain record; each subclass fixes the column
 * type, whether the column may be a primary key, and the default value.
 */
module Fields {
  import opened PyValues

  /** The class that built a Field (it shows in `Field.__str__`). */
  datatype Kind = BaseKind | StringKind | BooleanKind | IntegerKind | FloatKind | TextKind

  /**
   * `name`, `primary_key` and `default` hold whatever the caller passed;
   * the mapper reads `name` and `primary_key` by their truth value.
   */
  datatype Field = Field(kind: Kind, name: Value, columnType: string, primaryKey: Value, default: Value)

  /** `if v.primary_key:` in the registration loop. */
  predicate IsKey(f: Field) {
    Truthy(f.primaryKey)
  }

  /** `Field(name, column_type, primary_key, default)`. */
  function NewField(name: Value, columnType: string, primaryKey: Value, default: Value): Field {
    Field(BaseKind, name, columnType, primaryKey, default)
  }

  function StringField(name: Value := VNone, primaryKey: Value := VBool(false),
                       default: Value := VNone, columnType: string := "varchar(100)"): Field {
    Field(StringKind, name, columnType, primaryKey, default)
  }

  /** Always passes `False` as `primary_key`. */
  function BooleanField(name: Value := VNone, default: Value := VBool(false)): Field {
    Field(BooleanKind, name, "boolean", VBool(false), default)
  }

  function IntegerField(name: Value := VNone, primaryKey: Value := VBool(false),
                        default: Value := VInt(0)): Field {
    Field(IntegerKind, name, "bigint", primaryKey, default)
  }

  function FloatField(name: Value := VNone, primaryKey: Value := VBool(false),
                      default: Value := VFloat("0.0")): Field {
    Field(FloatKind, name, "real", primaryKey, default)
  }

  /** Always passes `False` as `primary_key`. */
  function TextField(name: Value := VNone, default: Value := VNone): Field {
    Field(TextKind, name, "text", VBool(false), default)
  }

  /** The column types, key eligibility and defaults each subclass fixes. */
  lemma FieldConventions(name: Value, pk: Value, default: Value)
    ensures StringField(name, pk).columnType == "varchar(100)" && StringField(name, pk).default == VNone
    ensures IsKey(StringField(name, pk)) == Truthy(pk)
    ensures BooleanField(name).columnType == "boolean" && BooleanField(name).default == VBool(false)
    ensures !IsKey(BooleanField(name, default))
    ensures IntegerField(name, pk).columnType == "bigint" && IntegerField(name, pk).default == VInt(0)
    ensures IsKey(IntegerField(name, pk, default)) == Truthy(pk)
    ensures FloatField(name, pk).columnType == "real" && FloatField(name, pk).default == VFloat("0.0")
    ensures IsKey(FloatField(name, pk, default)) == Truthy(pk)
    ensures TextField(name).columnType == "text" && TextField(name).default == VNone
    ensures !IsKey(TextField(name, default))
  {
  }

  /** The column name the update template uses: `field.name or attr`. */
  function ColumnName(f: Field, attr: string): string {
    if Truthy(f.name) then Str(f.name) else attr
  }

  /** The module name under which the application imports www/orm.py. */
  const ModuleName: string := "orm"

  function KindName(k: Kind): string {
    match k
    case BaseKind => "Field"
    case StringKind => "StringField"
    case BooleanKind => "BooleanField"
    case IntegerKind => "IntegerField"
    case FloatKind => "FloatField"
    case TextKind => "TextField"
  }

  /** `Field.__str__`: the class, the column type and the name. */
  function FieldText(f: Field): string {
    "<<class '" + ModuleName + "." + KindName(f.kind) + "'>, " + f.columnType + ":" + Str(f.name) + ">"
  }
}
