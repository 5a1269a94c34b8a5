/** Namespaced names, the keys of pods and of throttles. A cluster-scoped object has an empty namespace. */
module Names {
  datatype Name = Name(namespace: string, name: string)
}
