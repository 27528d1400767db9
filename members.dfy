// Class and function descriptions (src/expression/value_type.rs, `ClassType`,
// `Property` and `Function`).

module Members {
  import opened Wrappers
  import opened ValueTypes
  import opened VariableTypes

  /** A property: its name, its type and the text of its default value, if any. */
  datatype Property = Property(name: string, propType: VariableType, defaultValue: Option<string>)

  /** The source's `Function`: a name, its parameters and its return type. */
  datatype FunctionSignature = FunctionSignature(name: string, parameters: seq<Property>, returnType: VariableType)

  /** A class as the typing context knows it. */
  datatype ClassType = ClassType(name: string, typeParams: Option<seq<ValueType>>, properties: seq<Property>, functions: seq<FunctionSignature>)
}
